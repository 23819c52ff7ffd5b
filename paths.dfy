/**
 * java.nio.file.Path on a Unix file system, as far as Path.of, resolve and
 * normalize go: '/' separates name elements, and "." and ".." are the
 * special names normalize removes.
 */
module Paths {
  datatype FsPath = FsPath(absolute: bool, names: seq<string>)

  /** The directory both file services and the occurrence upload use: Paths.get("uploads"). */
  const UPLOADS: FsPath := FsPath(false, ["uploads"])

  /** The number of characters before the first '/'. */
  function NameLength(s: string): (n: nat)
    requires s != [] && s[0] != '/'
    ensures 0 < n <= |s|
    ensures forall i :: 0 <= i < n ==> s[i] != '/'
    ensures n < |s| ==> s[n] == '/'
  {
    if |s| == 1 || s[1] == '/' then 1 else 1 + NameLength(s[1..])
  }

  /** The name elements of a path string; repeated and trailing separators give no element. */
  function Names(s: string): (r: seq<string>)
    ensures forall i :: 0 <= i < |r| ==> r[i] != "" && '/' !in r[i]
    decreases |s|
  {
    if s == [] then []
    else if s[0] == '/' then Names(s[1..])
    else
      var n := NameLength(s);
      assert '/' !in s[..n] by {
        forall i | 0 <= i < n ensures s[..n][i] != '/' { }
      }
      [s[..n]] + Names(s[n..])
  }

  /** Path.of(s). */
  function Parse(s: string): FsPath {
    FsPath(|s| > 0 && s[0] == '/', Names(s))
  }

  /** base.resolve(other): an absolute argument replaces the base, otherwise its
      elements are appended. */
  function Resolve(base: FsPath, other: string): FsPath {
    var p := Parse(other);
    if p.absolute then p else FsPath(base.absolute, base.names + p.names)
  }

  /** Normal form: no "." element, and ".." only at the front of a relative path. */
  predicate IsNormal(absolute: bool, names: seq<string>) {
    (forall i :: 0 <= i < |names| ==> names[i] != ".")
    && forall i :: 0 <= i < |names| && names[i] == ".." ==>
         !absolute && forall j :: 0 <= j < i ==> names[j] == ".."
  }

  /** Scans the remaining elements: "." is dropped; ".." cancels the previous
      ordinary element, is dropped at the root of an absolute path, and is kept
      otherwise. */
  function NormalizeFrom(absolute: bool, done: seq<string>, rest: seq<string>): (r: seq<string>)
    requires IsNormal(absolute, done)
    ensures IsNormal(absolute, r)
    decreases |rest|
  {
    if rest == [] then done
    else if rest[0] == "." then NormalizeFrom(absolute, done, rest[1..])
    else if rest[0] == ".." then
      if |done| > 0 && done[|done| - 1] != ".." then NormalizeFrom(absolute, done[..|done| - 1], rest[1..])
      else if absolute then NormalizeFrom(absolute, done, rest[1..])
      else NormalizeFrom(absolute, done + [".."], rest[1..])
    else NormalizeFrom(absolute, done + [rest[0]], rest[1..])
  }

  /** Path.normalize(). */
  function Normalize(p: FsPath): (r: FsPath)
    ensures r.absolute == p.absolute && IsNormal(r.absolute, r.names)
  {
    FsPath(p.absolute, NormalizeFrom(p.absolute, [], p.names))
  }

  /** A path already in normal form comes back unchanged, so normalize is idempotent. */
  lemma {:induction false} NormalizeFromNormal(absolute: bool, done: seq<string>, rest: seq<string>)
    requires IsNormal(absolute, done + rest) && IsNormal(absolute, done)
    ensures NormalizeFrom(absolute, done, rest) == done + rest
    decreases |rest|
  {
    if rest != [] {
      var all := done + rest;
      assert all[|done|] == rest[0];
      assert rest[0] != ".";
      if rest[0] == ".." {
        assert !absolute;
        assert forall j :: 0 <= j < |done| ==> all[j] == done[j];
        if |done| > 0 {
          assert done[|done| - 1] == "..";
        }
      }
      assert done + rest == (done + [rest[0]]) + rest[1..];
      NormalizeFromNormal(absolute, done + [rest[0]], rest[1..]);
    } else {
      assert done + rest == done;
    }
  }

  lemma NormalizeIdempotent(p: FsPath)
    ensures Normalize(Normalize(p)) == Normalize(p)
  {
    var q := Normalize(p);
    assert [] + q.names == q.names;
    NormalizeFromNormal(q.absolute, [], q.names);
  }

  /** The path a service addresses for a file name: uploads.resolve(name).normalize(). */
  function UploadPath(filename: string): FsPath {
    Normalize(Resolve(UPLOADS, filename))
  }

  lemma {:induction false} NameLengthWhole(s: string)
    requires s != [] && '/' !in s
    ensures NameLength(s) == |s|
    decreases |s|
  {
    if |s| > 1 {
      assert s[1] in s;
      assert '/' !in s[1..] by {
        forall i | 0 <= i < |s[1..]| ensures s[1..][i] != '/' { assert s[1..][i] == s[i + 1]; assert s[i + 1] in s; }
      }
      NameLengthWhole(s[1..]);
    }
  }

  lemma NamesOfSingleName(s: string)
    requires s != [] && '/' !in s
    ensures Names(s) == [s]
  {
    assert s[0] in s;
    NameLengthWhole(s);
    assert s[..|s|] == s && s[|s|..] == [];
  }

  /** A file name that holds no separator and is not "." or ".." names a file
      directly inside uploads. */
  lemma PlainNameStaysInUploads(name: string)
    requires name != [] && '/' !in name && name != "." && name != ".."
    ensures UploadPath(name) == FsPath(false, ["uploads", name])
  {
    assert name[0] in name;
    NamesOfSingleName(name);
    assert Resolve(UPLOADS, name) == FsPath(false, ["uploads", name]);
    assert ["uploads", name][1..] == [name] && [name][1..] == [];
    assert [] + ["uploads"] == ["uploads"] && ["uploads"] + [name] == ["uploads", name];
    assert NormalizeFrom(false, [], ["uploads", name]) == NormalizeFrom(false, ["uploads"], [name]);
  }

  /** Without a ".." element a relative name stays inside uploads however many
      "." and separators it has. */
  lemma {:induction false} NoParentKeepsFirst(done: seq<string>, rest: seq<string>)
    requires IsNormal(false, done) && |done| > 0 && done[0] == "uploads"
    requires forall i :: 0 <= i < |rest| ==> rest[i] != ".."
    ensures var r := NormalizeFrom(false, done, rest); |r| > 0 && r[0] == "uploads"
    decreases |rest|
  {
    if rest != [] {
      if rest[0] == "." {
        NoParentKeepsFirst(done, rest[1..]);
      } else {
        NoParentKeepsFirst(done + [rest[0]], rest[1..]);
      }
    }
  }

  lemma NoParentStaysInUploads(name: string)
    requires name == [] || name[0] != '/'
    requires forall i :: 0 <= i < |Names(name)| ==> Names(name)[i] != ".."
    ensures !UploadPath(name).absolute
    ensures |UploadPath(name).names| > 0 && UploadPath(name).names[0] == "uploads"
  {
    var elems := ["uploads"] + Names(name);
    assert elems[0] == "uploads" && elems[1..] == Names(name) && [] + ["uploads"] == ["uploads"];
    assert NormalizeFrom(false, [], elems) == NormalizeFrom(false, ["uploads"], Names(name));
    NoParentKeepsFirst(["uploads"], Names(name));
  }

  lemma {:induction false} NameLengthPrefix(x: string, rest: string)
    requires x != [] && '/' !in x
    ensures NameLength(x + "/" + rest) == |x|
    decreases |x|
  {
    var s := x + "/" + rest;
    assert s[0] == x[0] && x[0] in x;
    if |x| == 1 {
      assert s[1] == '/';
    } else {
      assert x[1] in x && s[1] == x[1];
      assert s[1..] == x[1..] + "/" + rest;
      assert '/' !in x[1..] by {
        forall i | 0 <= i < |x[1..]| ensures x[1..][i] != '/' { assert x[1..][i] == x[i + 1]; assert x[i + 1] in x; }
      }
      NameLengthPrefix(x[1..], rest);
    }
  }

  /** The first element of "x/rest" is x. */
  lemma NamesSplit(x: string, rest: string)
    requires x != [] && '/' !in x
    ensures Names(x + "/" + rest) == [x] + Names(rest)
  {
    var s := x + "/" + rest;
    assert s[0] == x[0] && x[0] in x;
    NameLengthPrefix(x, rest);
    assert s[..|x|] == x && s[|x|..] == "/" + rest && ("/" + rest)[1..] == rest;
  }

  /** Nothing confines a name to uploads: a leading ".." climbs out of it ... */
  lemma ParentNameEscapesUploads(name: string)
    requires name != [] && '/' !in name && name != "." && name != ".."
    ensures UploadPath("../" + name) == FsPath(false, [name])
  {
    assert "../" + name == ".." + "/" + name;
    NamesSplit("..", name);
    NamesOfSingleName(name);
    var all := ["uploads", "..", name];
    assert Resolve(UPLOADS, "../" + name) == FsPath(false, all);
    assert all[1..] == ["..", name] && all[1..][1..] == [name] && [name][1..] == [];
    assert [] + ["uploads"] == ["uploads"] && ["uploads"][..0] == [] && [] + [name] == [name];
    calc {
      NormalizeFrom(false, [], all);
      NormalizeFrom(false, ["uploads"], ["..", name]);
      NormalizeFrom(false, [], [name]);
      NormalizeFrom(false, [name], []);
    }
  }

  /** ... and an absolute name replaces it. */
  lemma AbsoluteNameEscapesUploads(dir: string, name: string)
    requires dir != [] && '/' !in dir && dir != "." && dir != ".."
    requires name != [] && '/' !in name && name != "." && name != ".."
    ensures UploadPath("/" + dir + "/" + name) == FsPath(true, [dir, name])
  {
    var abs := "/" + dir + "/" + name;
    assert abs[0] == '/' && abs[1..] == dir + "/" + name;
    NamesSplit(dir, name);
    NamesOfSingleName(name);
    var names := [dir, name];
    assert Names(abs) == names;
    assert names[1..] == [name] && [name][1..] == [];
    assert [] + [dir] == [dir] && [dir] + [name] == names;
    assert NormalizeFrom(true, [], names) == NormalizeFrom(true, [dir], [name]);
  }
}
