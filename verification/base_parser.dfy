/** What every parser hands back (the dictionary `parse` returns), and the `os.path` helpers used to build it. */
module BaseParser {

  /** `{'output_folder': ..., 'parsed_file': ..., 'timestamp': ...}` */
  datatype ParseResult = ParseResult(outputFolder: string, parsedFile: string, timestamp: string)

  /** POSIX `os.path.join(a, b)`: an absolute `b` replaces `a`; otherwise one `/` separates them. */
  function PathJoin(a: string, b: string): (r: string)
    ensures |b| > 0 && b[0] == '/' ==> r == b
    ensures (|b| == 0 || b[0] != '/') && |a| > 0 && a[|a| - 1] != '/' ==> r == a + "/" + b
    ensures |r| >= |b| && r[|r| - |b|..] == b
  {
    if |b| > 0 && b[0] == '/' then b
    else if a == [] || a[|a| - 1] == '/' then a + b
    else a + "/" + b
  }

  /** POSIX `os.path.basename(p)`: what follows the last `/`. */
  function Basename(p: string): (r: string)
    ensures '/' !in r
    ensures |r| <= |p| && r == p[|p| - |r|..]
    ensures |r| < |p| ==> p[|p| - |r| - 1] == '/'
  {
    if p == [] then ""
    else if p[|p| - 1] == '/' then ""
    else Basename(p[..|p| - 1]) + [p[|p| - 1]]
  }

  /** The basename of a path is the part after its last separator. */
  lemma {:induction false} BasenameOfPlainSuffix(prefix: string, name: string)
    requires '/' !in name
    requires prefix == [] || prefix[|prefix| - 1] == '/'
    ensures Basename(prefix + name) == name
  {
    var p := prefix + name;
    if name != [] {
      var init := name[..|name| - 1];
      var c := name[|name| - 1];
      assert c in name;
      assert p[|p| - 1] == c && p[..|p| - 1] == prefix + init;
      BasenameOfPlainSuffix(prefix, init);
      assert Basename(p) == Basename(prefix + init) + [c];
      assert init + [c] == name;
    } else {
      assert p == prefix;
    }
  }

  /** A plain name (one without `/`) joined onto any directory is that path's basename. */
  lemma FileInFolder(dir: string, name: string)
    requires name != [] && '/' !in name
    ensures Basename(PathJoin(dir, name)) == name
  {
    if dir == [] || dir[|dir| - 1] == '/' {
      BasenameOfPlainSuffix(dir, name);
    } else {
      BasenameOfPlainSuffix(dir + "/", name);
      assert dir + "/" + name == (dir + "/") + name;
    }
  }

  /** `os.path.join(os.path.join(output_dir, timestamp), name)`: the file sits directly inside a folder
      named after the timestamp, itself directly inside `output_dir`. */
  lemma TimestampedFile(outputDir: string, timestamp: string, name: string)
    requires timestamp != [] && '/' !in timestamp
    requires name != [] && '/' !in name
    ensures var folder := PathJoin(outputDir, timestamp);
      && Basename(folder) == timestamp
      && PathJoin(folder, name) == folder + "/" + name
      && Basename(PathJoin(folder, name)) == name
  {
    var folder := PathJoin(outputDir, timestamp);
    FileInFolder(outputDir, timestamp);
    assert folder[|folder| - 1] == timestamp[|timestamp| - 1] && timestamp[|timestamp| - 1] in timestamp;
    FileInFolder(folder, name);
  }
}
