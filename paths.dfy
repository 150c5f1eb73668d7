/** The path classifier: a staged path is ignored when one of its
    `/`-separated segments is exactly the name of a dependency, build-output,
    tool-cache or virtual-environment directory. */
module Paths {
  import opened Text

  /** The fixed list of directory names whose contents are never described. */
  const IgnoredDirs: seq<string> := [
    "vendor", "node_modules", ".git", "dist", "build", "target", ".next",
    ".nuxt", "__pycache__", ".pytest_cache", ".tox", "venv", ".venv"
  ]

  /** Some element of `parts` is exactly an ignored directory name. */
  predicate HasIgnoredSegment(parts: seq<string>)
  {
    exists i :: 0 <= i < |parts| && parts[i] in IgnoredDirs
  }

  /** The inner search: does `part` equal one of `names`? */
  function MatchesAny(part: string, names: seq<string>): (found: bool)
    ensures found <==> part in names
  {
    if names == [] then false
    else part == names[0] || MatchesAny(part, names[1..])
  }

  /** The outer search: is any of `parts` an ignored directory name? */
  function AnyIgnored(parts: seq<string>): (found: bool)
    ensures found <==> HasIgnoredSegment(parts)
  {
    if parts == [] then false
    else
      var found := MatchesAny(parts[0], IgnoredDirs) || AnyIgnored(parts[1..]);
      assert HasIgnoredSegment(parts[1..]) ==> HasIgnoredSegment(parts) by {
        if HasIgnoredSegment(parts[1..]) {
          var i :| 0 <= i < |parts[1..]| && parts[1..][i] in IgnoredDirs;
          assert parts[i + 1] in IgnoredDirs;
        }
      }
      assert HasIgnoredSegment(parts) ==> parts[0] in IgnoredDirs || HasIgnoredSegment(parts[1..]) by {
        if HasIgnoredSegment(parts) && parts[0] !in IgnoredDirs {
          var i :| 0 <= i < |parts| && parts[i] in IgnoredDirs;
          assert parts[1..][i - 1] in IgnoredDirs;
        }
      }
      found
  }

  /** `shouldIgnorePath`: split on `/` and search every segment. */
  function ShouldIgnorePath(path: string): (ignored: bool)
    ensures ignored <==> HasIgnoredSegment(Split(path, '/'))
  {
    AnyIgnored(Split(path, '/'))
  }

  /** A path assembled from directory and file names is ignored exactly when
      one of those names is an ignored directory name: exact matches only,
      at any depth. */
  lemma IgnoredIffSomeSegment(segments: seq<string>)
    requires |segments| >= 1
    requires forall i :: 0 <= i < |segments| ==> '/' !in segments[i]
    ensures ShouldIgnorePath(Join(segments, '/')) <==> HasIgnoredSegment(segments)
  {
    SplitJoin(segments, '/');
  }

  /** Nesting: `dir/rest` is ignored iff `dir` or `rest` is. */
  lemma IgnoredUnderDirectory(dir: string, rest: string)
    ensures ShouldIgnorePath(dir + "/" + rest) <==> ShouldIgnorePath(dir) || ShouldIgnorePath(rest)
  {
    SplitAround(dir, rest, '/');
    assert dir + "/" + rest == dir + ['/'] + rest;
    HasIgnoredSegmentAppend(Split(dir, '/'), Split(rest, '/'));
  }

  /** A concatenation of segment lists holds an ignored name iff one of the
      two lists does. */
  lemma HasIgnoredSegmentAppend(xs: seq<string>, ys: seq<string>)
    ensures HasIgnoredSegment(xs + ys) <==> HasIgnoredSegment(xs) || HasIgnoredSegment(ys)
  {
    SomeInAppend(xs, ys, IgnoredDirs);
  }

  lemma SomeInAppend(xs: seq<string>, ys: seq<string>, names: seq<string>)
    ensures (exists i :: 0 <= i < |xs + ys| && (xs + ys)[i] in names) <==>
            (exists i :: 0 <= i < |xs| && xs[i] in names) || (exists i :: 0 <= i < |ys| && ys[i] in names)
  {
    if exists i :: 0 <= i < |xs + ys| && (xs + ys)[i] in names {
      var i :| 0 <= i < |xs + ys| && (xs + ys)[i] in names;
      if i < |xs| {
        assert xs[i] in names;
      } else {
        assert ys[i - |xs|] in names;
      }
    }
    if exists i :: 0 <= i < |xs| && xs[i] in names {
      var i :| 0 <= i < |xs| && xs[i] in names;
      assert (xs + ys)[i] in names;
    }
    if exists i :: 0 <= i < |ys| && ys[i] in names {
      var i :| 0 <= i < |ys| && ys[i] in names;
      assert (xs + ys)[|xs| + i] in names;
    }
  }

  /** A directory whose name merely starts with an ignored name is kept. */
  lemma NearMissIsKept()
    ensures !ShouldIgnorePath("vendor_backup/file.go")
  {
    var segments := ["vendor_backup", "file.go"];
    assert Join(segments, '/') == "vendor_backup/file.go" by {
      assert Join(segments[1..], '/') == "file.go";
    }
    assert "vendor_backup" !in IgnoredDirs by {
      assert forall k :: 0 <= k < |IgnoredDirs| ==> IgnoredDirs[k] != "vendor_backup" by {
        assert ".pytest_cache"[0] != "vendor_backup"[0];
      }
    }
    assert !HasIgnoredSegment(segments);
    IgnoredIffSomeSegment(segments);
  }

  /** A plain file name at the top level is kept. */
  lemma PlainFileIsKept()
    ensures !ShouldIgnorePath("main.go")
  {
    var segments := ["main.go"];
    assert "main.go" !in IgnoredDirs by {
      assert forall k :: 0 <= k < |IgnoredDirs| ==> IgnoredDirs[k][0] != 'm';
    }
    assert !HasIgnoredSegment(segments);
    IgnoredIffSomeSegment(segments);
  }

  /** Ignored directories count at any depth. */
  lemma NestedVendorIsIgnored()
    ensures ShouldIgnorePath("src/vendor/lib.go")
  {
    var segments := ["src", "vendor", "lib.go"];
    assert Join(segments, '/') == "src/vendor/lib.go" by {
      assert Join(segments[2..], '/') == "lib.go";
      assert Join(segments[1..], '/') == "vendor/lib.go";
    }
    assert segments[1] == IgnoredDirs[0];
    IgnoredIffSomeSegment(segments);
  }
}
