/**
  `pathlib.Path(p).name` on a POSIX path: the last component of the path, where
  empty components (from repeated or trailing `/`) and `.` components are not
  components at all. A path with no component left (`""`, `"."`, `"/"`) has the
  empty name.
 */
module Paths {
  import opened Strings

  const Slash: char := '/'

  /** The pieces of a split path that pathlib keeps as components. */
  function Components(pieces: seq<string>): (cs: seq<string>)
    ensures forall k :: 0 <= k < |cs| ==> cs[k] != "" && cs[k] != "." && cs[k] in pieces
    ensures forall k :: 0 <= k < |pieces| && pieces[k] != "" && pieces[k] != "." ==> pieces[k] in cs
    ensures |pieces| > 0 && pieces[|pieces| - 1] != "" && pieces[|pieces| - 1] != "." ==>
      |cs| > 0 && cs[|cs| - 1] == pieces[|pieces| - 1]
    decreases |pieces|
  {
    if |pieces| == 0 then []
    else
      var rest := Components(pieces[1..]);
      if pieces[0] == "" || pieces[0] == "." then rest else [pieces[0]] + rest
  }

  /** `Path(p).name`: never contains a `/` and is never `.`. */
  function Name(p: string): (r: string)
    ensures Slash !in r && r != "."
    ensures r == "" || r in Split(p, Slash)
  {
    SplitPiecesFree(p, Slash);
    var cs := Components(Split(p, Slash));
    if |cs| == 0 then "" else cs[|cs| - 1]
  }

  /**
    For a path whose text after its last `/` (or the whole path, if it has no `/`)
    is a proper file name, the name is exactly that text, a suffix of the path.
   */
  lemma NameAfterLastSlash(p: string, i: int)
    requires -1 <= i < |p|
    requires i >= 0 ==> p[i] == Slash
    requires Slash !in p[i + 1..]
    requires p[i + 1..] != "" && p[i + 1..] != "."
    ensures Name(p) == p[i + 1..]
  {
    if i < 0 {
      LastPieceWithoutSlash(p);
    } else {
      LastPieceAfterSlash(p, i);
    }
    NameIsLastPiece(p);
  }

  /** When the last piece of the split is a proper file name, it is the name. */
  lemma NameIsLastPiece(p: string)
    requires Last(Split(p, Slash)) != "" && Last(Split(p, Slash)) != "."
    ensures Name(p) == Last(Split(p, Slash))
  {
  }

  /** A path without `/` splits into itself alone. */
  lemma LastPieceWithoutSlash(p: string)
    requires Slash !in p
    ensures Last(Split(p, Slash)) == p
  {
    SplitSingle(p, Slash);
  }

  /** With a `/` at `i` and none after it, the last piece is the text after `i`. */
  lemma LastPieceAfterSlash(p: string, i: nat)
    requires i < |p| && p[i] == Slash && Slash !in p[i + 1..]
    ensures Last(Split(p, Slash)) == p[i + 1..]
  {
    var parts := Split(p, Slash);
    var last := Last(parts);
    SplitSingle(p, Slash);
    assert p[i] in p;
    SplitLast(p, Slash);
    LastPieceFree(p);
    SlashAt(p, last, |p| - |last| - 1, i);
  }

  /** The last piece of a split holds no `/`. */
  lemma LastPieceFree(p: string)
    ensures Slash !in Last(Split(p, Slash))
  {
    SplitPiecesFree(p, Slash);
  }

  /**
    Two `/` positions each followed, up to the end, by `/`-free text are the same
    position.
   */
  lemma SlashAt(p: string, last: string, j: nat, i: nat)
    requires j < |p| && i < |p| && p[j] == Slash && p[i] == Slash
    requires j + 1 + |last| == |p| && p[j + 1..] == last && Slash !in last
    requires Slash !in p[i + 1..]
    ensures last == p[i + 1..]
  {
    assert forall k :: j < k < |p| ==> p[k] == last[k - j - 1];
    assert forall k :: i < k < |p| ==> p[k] == p[i + 1..][k - i - 1];
  }

  /** A bare file name (no `/`) is its own name. */
  lemma BareNameUnchanged(p: string)
    requires Slash !in p && p != "" && p != "."
    ensures Name(p) == p
  {
    assert p[0..] == p;
    NameAfterLastSlash(p, -1);
  }

  /** A file name placed under any directory is the name of the resulting path. */
  lemma NameUnderDirectory(dir: string, file: string)
    requires Slash !in file && file != "" && file != "."
    ensures Name(dir + [Slash] + file) == file
  {
    var p := dir + [Slash] + file;
    assert p[|dir| + 1..] == file;
    NameAfterLastSlash(p, |dir|);
  }

  /** The name of a downloaded file under a media directory. */
  lemma MediaFileNameExample()
    ensures Name("/media/lofi_beats.m4a") == "lofi_beats.m4a"
  {
    var file := "lofi_beats.m4a";
    NameUnderDirectory("/media", file);
    assert "/media" + [Slash] + file == "/media/lofi_beats.m4a";
  }
}
