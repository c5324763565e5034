/** The two POSIX path operations the container manager uses, as Python's `posixpath`
    defines them: `os.path.dirname` and two-argument `os.path.join`. Paths are plain
    strings and '/' is the only separator. */
module Paths {
  import opened Text

  predicate NoSlash(s: string) {
    forall k :: 0 <= k < |s| ==> s[k] != '/'
  }

  predicate AllSlashes(s: string) {
    forall k :: 0 <= k < |s| ==> s[k] == '/'
  }

  /** `p.rfind('/') + 1`: the length of `p` up to and including its last '/', 0 when there is none. */
  function HeadLength(p: string): (n: nat)
    ensures n <= |p|
    ensures n > 0 ==> p[n - 1] == '/'
    ensures NoSlash(p[n..])
  {
    if p == [] then 0
    else if p[|p| - 1] == '/' then |p|
    else
      var n := HeadLength(p[..|p| - 1]);
      assert p[n..] == p[..|p| - 1][n..] + [p[|p| - 1]];
      n
  }

  /** `s.rstrip('/')`: drops the trailing separators and nothing else. */
  function StripSlashes(s: string): (r: string)
    ensures |r| <= |s| && r == s[..|r|]
    ensures AllSlashes(s[|r|..])
    ensures r == [] || r[|r| - 1] != '/'
  {
    if s != [] && s[|s| - 1] == '/' then
      var r := StripSlashes(s[..|s| - 1]);
      assert s[|r|..] == s[..|s| - 1][|r|..] + [s[|s| - 1]];
      r
    else
      s
  }

  /** `posixpath.dirname(p)`: everything before the last '/', with the separators that end
      it removed unless it consists of separators only ("/x" has dirname "/"). */
  function Dirname(p: string): (d: string)
    ensures |d| <= |p| && d == p[..|d|]
    ensures NoSlash(p) ==> d == ""
    ensures d == [] || d[|d| - 1] != '/' || AllSlashes(d)
  {
    var head := p[..HeadLength(p)];
    if head != [] && !AllSlashes(head) then StripSlashes(head) else head
  }

  /** `posixpath.join(a, b)`: `b` alone when it is absolute, otherwise `b` appended to `a`
      with one separator between them unless `a` is empty or already ends in one. */
  function PathJoin(a: string, b: string): string {
    if |b| > 0 && b[0] == '/' then b
    else if a == [] || EndsWith(a, "/") then a + b
    else a + "/" + b
  }

  lemma {:induction false} HeadLengthAfterSeparator(dir: string, name: string)
    requires dir != [] && dir[|dir| - 1] == '/' && NoSlash(name)
    ensures HeadLength(dir + name) == |dir|
  {
    var p := dir + name;
    if name == [] {
      assert p == dir;
    } else {
      assert p[|p| - 1] == name[|name| - 1];
      assert p[..|p| - 1] == dir + name[..|name| - 1];
      HeadLengthAfterSeparator(dir, name[..|name| - 1]);
    }
  }

  lemma {:induction false} StripSlashesSkips(s: string, tail: string)
    requires AllSlashes(tail)
    ensures StripSlashes(s + tail) == StripSlashes(s)
  {
    if tail == [] {
      assert s + tail == s;
    } else {
      var p := s + tail;
      assert p[|p| - 1] == tail[|tail| - 1];
      assert p[..|p| - 1] == s + tail[..|tail| - 1];
      StripSlashesSkips(s, tail[..|tail| - 1]);
    }
  }

  /** The parent of a name joined onto a directory is that directory, written without its
      trailing separators (the root directory stays as it is). */
  lemma DirnameOfJoin(dir: string, name: string)
    requires dir != [] && NoSlash(name)
    ensures Dirname(PathJoin(dir, name)) == if AllSlashes(dir) then dir else StripSlashes(dir)
  {
    var base := if EndsWith(dir, "/") then dir else dir + "/";
    assert PathJoin(dir, name) == base + name;
    HeadLengthAfterSeparator(base, name);
    assert (base + name)[..|base|] == base;
    if !EndsWith(dir, "/") {
      StripSlashesSkips(dir, "/");
    }
  }

  /** The parent of `dir/name` is `dir` when `dir` does not end in a separator. */
  lemma DirnameOfChild(dir: string, name: string)
    requires dir != [] && dir[|dir| - 1] != '/' && NoSlash(name)
    ensures Dirname(dir + "/" + name) == dir
  {
    assert !EndsWith(dir, "/") by {
      assert dir[|dir| - 1..] == [dir[|dir| - 1]];
    }
    assert PathJoin(dir, name) == dir + "/" + name;
    DirnameOfJoin(dir, name);
    assert !AllSlashes(dir) by {
      assert dir[|dir| - 1] != '/';
    }
  }
}
