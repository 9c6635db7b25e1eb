/**
 * `IsVideoFile` of backend/pkg/video/processor.go: the lower-cased extension
 * of a file name, as Go's `filepath.Ext` finds it on a Unix system, looked up
 * in a fixed list.
 */
module VideoFormat {

  const Separator: char := '/'

  const SupportedExts: seq<string> := [".mp4", ".avi", ".mov", ".mkv", ".flv", ".wmv", ".webm", ".m4v"]

  /**
   * `filepath.Ext`: scanning back from the end, the text from the last '.'
   * on, or "" when a separator or the start comes first.
   */
  function Ext(path: string): string
    decreases |path|
  {
    if path == [] || path[|path| - 1] == Separator then ""
    else if path[|path| - 1] == '.' then "."
    else
      var e := Ext(path[..|path| - 1]);
      if e == "" then "" else e + [path[|path| - 1]]
  }

  /** `unicode.ToLower` on ASCII letters. */
  function LowerChar(c: char): char {
    if 'A' <= c <= 'Z' then (c as int + 32) as char else c
  }

  /** `strings.ToLower`, letter by letter. */
  function Lower(s: string): (r: string)
    ensures |r| == |s|
    ensures forall i :: 0 <= i < |s| ==> r[i] == LowerChar(s[i])
  {
    seq(|s|, i requires 0 <= i < |s| => LowerChar(s[i]))
  }

  predicate IsVideoFile(filename: string) {
    Lower(Ext(filename)) in SupportedExts
  }

  /** No '.' and no separator from position `from` to the end. */
  predicate PlainTail(path: string, from: nat)
    requires from <= |path|
  {
    forall j :: from <= j < |path| ==> path[j] != '.' && path[j] != Separator
  }

  /**
   * What Ext returns, stated without the scan: the suffix that starts at a
   * '.' and holds no other '.' and no separator, or "" when the final path
   * element has no such dot.
   */
  lemma {:induction false} ExtExact(path: string)
    ensures Ext(path) == "" <==> forall i :: 0 <= i < |path| && path[i] == '.' ==> !PlainTail(path, i + 1)
    ensures Ext(path) != "" ==>
      var k := |path| - |Ext(path)|;
      0 <= k < |path| && Ext(path) == path[k..] && path[k] == '.' && PlainTail(path, k + 1)
    decreases |path|
  {
    if path == [] {
    } else {
      var n := |path| - 1;
      var last := path[n];
      var init := path[..n];
      if last == Separator {
        forall i | 0 <= i < |path| && path[i] == '.' ensures !PlainTail(path, i + 1) {
          assert i < n;
        }
      } else if last == '.' {
        assert PlainTail(path, n + 1);
      } else {
        ExtExact(init);
        if Ext(init) == "" {
          NoPlainDotSnoc(path);
        } else {
          var k := |init| - |Ext(init)|;
          assert Ext(path) == path[k..];
          PlainTailSnoc(path, k);
        }
      }
    }
  }

  /** Appending a character other than '.' adds no dot that starts a plain tail. */
  lemma NoPlainDotSnoc(path: string)
    requires |path| >= 1 && path[|path| - 1] != '.'
    requires var init := path[..|path| - 1];
      forall i :: 0 <= i < |init| && init[i] == '.' ==> !PlainTail(init, i + 1)
    ensures forall i :: 0 <= i < |path| && path[i] == '.' ==> !PlainTail(path, i + 1)
  {
    var n := |path| - 1;
    var init := path[..n];
    forall i | 0 <= i < |path| && path[i] == '.' ensures !PlainTail(path, i + 1) {
      assert i < n && init[i] == '.';
      assert !PlainTail(init, i + 1);
      var j :| i + 1 <= j < |init| && (init[j] == '.' || init[j] == Separator);
      assert path[j] == init[j];
    }
  }

  /** Appending a character that is neither '.' nor a separator keeps a plain tail plain. */
  lemma PlainTailSnoc(path: string, k: nat)
    requires k < |path| - 1 && path[|path| - 1] != '.' && path[|path| - 1] != Separator
    requires PlainTail(path[..|path| - 1], k + 1)
    ensures PlainTail(path, k + 1)
  {
    var n := |path| - 1;
    forall j | k + 1 <= j < |path| ensures path[j] != '.' && path[j] != Separator {
      if j < n { assert path[j] == path[..n][j]; }
    }
  }

  /** A dot-led suffix with no other dot and no separator is the extension, whatever precedes it. */
  lemma ExtOfSuffix(stem: string, ext: string)
    requires |ext| >= 1 && ext[0] == '.' && PlainTail(ext, 1)
    ensures Ext(stem + ext) == ext
  {
    var path := stem + ext;
    var k := |stem|;
    assert path[k..] == ext;
    ExtExact(path);
    assert PlainTail(path, k + 1) by {
      forall j | k + 1 <= j < |path| ensures path[j] != '.' && path[j] != Separator {
        assert path[j] == ext[j - k];
      }
    }
    assert path[k] == '.';
    var m := |path| - |Ext(path)|;
    assert m == k;
  }

  /** Lower-casing commutes with Ext, since it never makes or removes a '.' or a separator. */
  lemma {:induction false} ExtOfLower(path: string)
    ensures Ext(Lower(path)) == Lower(Ext(path))
    decreases |path|
  {
    if path != [] {
      var n := |path| - 1;
      assert Lower(path)[..n] == Lower(path[..n]);
      ExtOfLower(path[..n]);
      var e := Ext(path[..n]);
      if e != "" && path[n] != Separator && path[n] != '.' {
        assert Lower(e + [path[n]]) == Lower(e) + [LowerChar(path[n])];
      }
    }
  }

  /** Case does not matter: a name and its lower-case form are judged alike. */
  lemma CaseInsensitive(filename: string)
    ensures IsVideoFile(filename) == IsVideoFile(Lower(filename))
  {
    ExtOfLower(filename);
    var e := Ext(filename);
    assert Lower(Lower(e)) == Lower(e);
  }

  /** A '.' at k starts the final path element's extension. */
  predicate DotAt(filename: string, k: int) {
    0 <= k < |filename| && filename[k] == '.' && PlainTail(filename, k + 1)
  }

  /** Exactly the names whose final element ends in a listed extension, in any case, are accepted. */
  lemma IsVideoFileExact(filename: string)
    ensures IsVideoFile(filename) <==>
      exists k :: DotAt(filename, k) && Lower(filename[k..]) in SupportedExts
  {
    if IsVideoFile(filename) {
      AcceptedEndsInExt(filename);
    }
    if exists k :: DotAt(filename, k) && Lower(filename[k..]) in SupportedExts {
      var k :| DotAt(filename, k) && Lower(filename[k..]) in SupportedExts;
      ExtAtDot(filename, k);
    }
  }

  lemma AcceptedEndsInExt(filename: string)
    requires IsVideoFile(filename)
    ensures var k := |filename| - |Ext(filename)|;
      DotAt(filename, k) && Ext(filename) == filename[k..]
  {
    ExtExact(filename);
    assert Ext(filename) != "" by {
      assert Lower("") == "";
      assert "" !in SupportedExts;
    }
  }

  lemma ExtAtDot(filename: string, k: int)
    requires DotAt(filename, k)
    ensures Ext(filename) == filename[k..]
  {
    assert filename[..k] + filename[k..] == filename;
    ExtOfSuffix(filename[..k], filename[k..]);
  }

  /** A final path element without a '.' has no extension. */
  lemma ExtWithoutDot(dir: string, name: string)
    requires '.' !in name && Separator !in name
    ensures Ext(dir + [Separator] + name) == "" && Ext(name) == ""
  {
    var path := dir + [Separator] + name;
    ExtExact(path);
    forall i | 0 <= i < |path| && path[i] == '.' ensures !PlainTail(path, i + 1) {
      assert i < |dir| && path[|dir|] == Separator;
    }
    ExtExact(name);
  }

  /** Matching ignores case: "CLIP.MP4" is accepted. */
  lemma UpperCaseNameAccepted()
    ensures IsVideoFile("CLIP.MP4")
  {
    ExtOfSuffix("CLIP", ".MP4");
    assert "CLIP" + ".MP4" == "CLIP.MP4";
    assert Lower(".MP4") == ".mp4";
  }

  /** Only the text from the last '.' counts: "a.txt.mp4" is accepted, "a.mp4.txt" is not. */
  lemma LastDotDecides()
    ensures IsVideoFile("a.txt.mp4")
    ensures !IsVideoFile("a.mp4.txt")
  {
    ExtOfSuffix("a.txt", ".mp4");
    assert "a.txt" + ".mp4" == "a.txt.mp4";
    assert Lower(".mp4") == ".mp4";
    ExtOfSuffix("a.mp4", ".txt");
    assert "a.mp4" + ".txt" == "a.mp4.txt";
    assert Lower(".txt") == ".txt";
  }

  /** Dots in directory names are ignored, and a name without a dot has no extension. */
  lemma DotlessFinalElementRejected()
    ensures !IsVideoFile("dir.mp4/file")
    ensures !IsVideoFile("mp4")
  {
    ExtWithoutDot("dir.mp4", "file");
    assert "dir.mp4" + [Separator] + "file" == "dir.mp4/file";
    ExtWithoutDot("", "mp4");
    assert Lower("") == "";
  }
}
