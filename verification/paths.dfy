/**
 POSIX path manipulation as Python's `posixpath` performs it:
 `split`, `dirname`, `basename` and `join`, plus `rsplit(sep, 1)[0]`,
 all defined through the position after the last occurrence of a character.
 */
module Paths {

  /**
   The index just past the last `c` in `s`, or 0 when `s` has none
   (`s.rfind(c) + 1`).
   */
  function AfterLast(s: string, c: char): (i: nat)
    ensures i <= |s|
    ensures i > 0 ==> s[i - 1] == c
    ensures forall k :: i <= k < |s| ==> s[k] != c
    decreases |s|
  {
    if s == [] then 0
    else if s[|s| - 1] == c then |s|
    else AfterLast(s[..|s| - 1], c)
  }

  /** The three facts above pin the index down: any index with them is it. */
  lemma AfterLastUnique(s: string, c: char, i: nat)
    requires i <= |s|
    requires i > 0 ==> s[i - 1] == c
    requires forall k :: i <= k < |s| ==> s[k] != c
    ensures AfterLast(s, c) == i
  {
  }

  predicate AllSlashes(s: string)
  {
    forall k :: 0 <= k < |s| ==> s[k] == '/'
  }

  /** `s.rstrip('/')`: `s` without its trailing run of slashes. */
  function RStripSlashes(s: string): (r: string)
    ensures |r| <= |s| && r == s[..|r|]
    ensures r == [] || r[|r| - 1] != '/'
    ensures forall k :: |r| <= k < |s| ==> s[k] == '/'
    decreases |s|
  {
    if s != [] && s[|s| - 1] == '/' then RStripSlashes(s[..|s| - 1]) else s
  }

  /**
   `posixpath.split(p)`: the tail is everything after the last slash, the
   head everything up to it, with trailing slashes removed from the head
   unless the head consists of slashes only.
   */
  function Split(p: string): (r: (string, string))
    ensures '/' !in r.1
  {
    var i := AfterLast(p, '/');
    var head := p[..i];
    if head != [] && !AllSlashes(head) then (RStripSlashes(head), p[i..]) else (head, p[i..])
  }

  /**
   What `Split` returns, stated without reference to how it is computed:
   the path is the head, a run of slashes and the tail; the tail is the
   longest slash-free suffix; and the head loses its trailing slashes
   exactly when it is not made of slashes only. These facts determine the
   result.
   */
  lemma SplitSpec(p: string)
    ensures var (head, tail) := Split(p);
      && |head| + |tail| <= |p|
      && p == head + p[|head|..|p| - |tail|] + tail
      && AllSlashes(p[|head|..|p| - |tail|])
      && '/' !in tail
      && (|tail| < |p| ==> p[|p| - |tail| - 1] == '/')
      && (head != [] && !AllSlashes(head) ==> head[|head| - 1] != '/')
      && (head == [] || AllSlashes(head) ==> |head| + |tail| == |p|)
  {
    var i := AfterLast(p, '/');
    var head := p[..i];
    var tail := p[i..];
    assert p == head + tail;
    if head != [] && !AllSlashes(head) {
      var h := RStripSlashes(head);
      assert p == h + p[|h|..i] + tail;
    }
  }

  /** `os.path.dirname(p)`: never ends in a slash unless it consists of slashes only. */
  function Dirname(p: string): (d: string)
    ensures d == [] || AllSlashes(d) || d[|d| - 1] != '/'
  {
    Split(p).0
  }

  /** `os.path.basename(p)`: the part after the last slash. */
  function Basename(p: string): (b: string)
    ensures '/' !in b
  {
    Split(p).1
  }

  /**
   `os.path.join(a, b)`: an absolute `b` replaces `a`; otherwise `b` is
   appended to `a`, with a slash between them unless `a` is empty or
   already ends in one.
   */
  function Join(a: string, b: string): (r: string)
    ensures |b| > 0 && b[0] == '/' ==> r == b
    ensures !(|b| > 0 && b[0] == '/') ==> a <= r && |b| <= |r| && r[|r| - |b|..] == b
    ensures !(|b| > 0 && b[0] == '/') ==>
              |r| == |a| + |b| + (if a == [] || a[|a| - 1] == '/' then 0 else 1)
    ensures !(|b| > 0 && b[0] == '/') && a != [] && a[|a| - 1] != '/' ==> r[|a|] == '/'
  {
    if |b| > 0 && b[0] == '/' then b
    else if a == [] || a[|a| - 1] == '/' then a + b
    else a + "/" + b
  }

  /** The basename of a path that ends in `/` followed by a slash-free `b` is `b`. */
  lemma BasenameAfterSlash(s: string, b: string)
    requires s == [] || s[|s| - 1] == '/'
    requires '/' !in b
    ensures Basename(s + b) == b
  {
    var p := s + b;
    AfterLastUnique(p, '/', |s|);
    assert p[|s|..] == b;
  }

  /** Joining a slash-free name onto any directory preserves the name as the basename. */
  lemma BasenameOfJoin(a: string, b: string)
    requires '/' !in b
    ensures Basename(Join(a, b)) == b
  {
    assert !(|b| > 0 && b[0] == '/') by {
      if |b| > 0 { assert b[0] in b; }
    }
    if a == [] || a[|a| - 1] == '/' {
      BasenameAfterSlash(a, b);
    } else {
      assert a + "/" + b == (a + "/") + b;
      BasenameAfterSlash(a + "/", b);
    }
  }

  /**
   `name.rsplit(c, 1)[0]`: everything before the last `c`, or the whole
   name when it has none.
   */
  function BeforeLast(name: string, c: char): (r: string)
    ensures r <= name
    ensures c !in name ==> r == name
  {
    var i := AfterLast(name, c);
    if i == 0 then name else name[..i - 1]
  }

  /** What follows `prefix + c` when it contains no `c` is cut off exactly. */
  lemma BeforeLastOfJoined(prefix: string, c: char, tail: string)
    requires c !in tail
    ensures BeforeLast(prefix + [c] + tail, c) == prefix
  {
    var s := prefix + [c] + tail;
    AfterLastUnique(s, c, |prefix| + 1);
    assert s[..|prefix|] == prefix;
  }
}
