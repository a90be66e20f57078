/** The POSIX path functions of Python's `os.path` that the scripts call. */
module PyPath {

  /** Number of characters before and including the last `/` (`p.rfind('/') + 1`). */
  function DirLength(p: string): (n: nat)
    ensures n <= |p|
    ensures n > 0 ==> p[n - 1] == '/'
    ensures forall i :: n <= i < |p| ==> p[i] != '/'
  {
    if p == [] then 0 else if p[|p| - 1] == '/' then |p| else DirLength(p[..|p| - 1])
  }

  /** `os.path.join(a, b)`: an absolute `b` replaces `a`; otherwise one `/` separates them unless `a` is empty or ends in `/`. */
  function Join(a: string, b: string): string {
    if b != [] && b[0] == '/' then b
    else if a == [] || a[|a| - 1] == '/' then a + b
    else a + "/" + b
  }

  /** `os.path.basename(p)`: the text after the last `/`. */
  function Basename(p: string): (r: string)
    ensures '/' !in r
    ensures |r| <= |p| && r == p[|p| - |r|..]
  {
    p[DirLength(p)..]
  }

  predicate AllSlashes(s: string) {
    forall i :: 0 <= i < |s| ==> s[i] == '/'
  }

  /** `s.rstrip('/')`. */
  function StripTrailingSlashes(s: string): string {
    if s != [] && s[|s| - 1] == '/' then StripTrailingSlashes(s[..|s| - 1]) else s
  }

  /** `os.path.dirname(p)`: the text up to the last `/`, without trailing slashes unless it is only slashes. */
  function Dirname(p: string): string {
    var head := p[..DirLength(p)];
    if head != [] && !AllSlashes(head) then StripTrailingSlashes(head) else head
  }

  /**
   * The text that `Join(a, _)` puts in front of a component depends only on
   * whether the component starts with `/`, so components that agree on that
   * and are joined to the same directory give equal paths only if they are equal.
   */
  lemma JoinInjective(a: string, b: string, c: string)
    requires (b != [] && b[0] == '/') == (c != [] && c[0] == '/')
    requires Join(a, b) == Join(a, c)
    ensures b == c
  {
    if !(b != [] && b[0] == '/') {
      var pre := if a == [] || a[|a| - 1] == '/' then a else a + "/";
      assert Join(a, b) == pre + b && Join(a, c) == pre + c;
      assert b == (pre + b)[|pre|..];
      assert c == (pre + c)[|pre|..];
    }
  }

  /** After a directory part that ends in `/` (or is empty), a name without `/` is the base name. */
  lemma {:induction false} DirLengthAfter(prefix: string, name: string)
    requires prefix == [] || prefix[|prefix| - 1] == '/'
    requires '/' !in name
    ensures DirLength(prefix + name) == |prefix|
  {
    if name == [] {
      assert prefix + name == prefix;
    } else {
      var init := name[..|name| - 1];
      assert (prefix + name)[..|prefix + name| - 1] == prefix + init;
      assert (prefix + name)[|prefix + name| - 1] == name[|name| - 1];
      assert '/' !in init by {
        assert forall k :: 0 <= k < |init| ==> init[k] == name[k];
      }
      DirLengthAfter(prefix, init);
    }
  }

  lemma BasenameAfter(prefix: string, name: string)
    requires prefix == [] || prefix[|prefix| - 1] == '/'
    requires '/' !in name
    ensures Basename(prefix + name) == name
  {
    DirLengthAfter(prefix, name);
    assert (prefix + name)[|prefix|..] == name;
  }

  /** `dirname("d/n") == "d"` when `d` does not end in `/`, and `dirname("n") == ""`. */
  lemma DirnameAfter(dir: string, name: string)
    requires '/' !in name
    ensures dir != [] && dir[|dir| - 1] != '/' ==> Dirname(dir + "/" + name) == dir
    ensures Dirname(name) == ""
  {
    DirLengthAfter([], name);
    assert [] + name == name;
    if dir != [] && dir[|dir| - 1] != '/' {
      var head := dir + "/";
      DirLengthAfter(head, name);
      assert dir + "/" + name == head + name;
      assert (head + name)[..|head|] == head;
      assert head[|dir| - 1] != '/';
      assert !AllSlashes(head);
      assert head[..|head| - 1] == dir;
      assert StripTrailingSlashes(head) == StripTrailingSlashes(dir) == dir;
    }
  }
}
