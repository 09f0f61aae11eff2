/** The '/'-separated strings the script builds and takes apart: the base
    name of a POSIX path (`os.path.basename`) and the segments of an
    object-store key. */
module Paths {

  predicate NoSlash(s: string) { forall i :: 0 <= i < |s| ==> s[i] != '/' }

  /** `os.path.basename(p)` on POSIX: everything after the last '/', or the
      whole path when it has none. */
  function Basename(p: string): (b: string)
    ensures NoSlash(b)
    ensures |b| <= |p| && b == p[|p| - |b|..]
    ensures |b| < |p| ==> p[|p| - |b| - 1] == '/'
  {
    if p == [] || p[|p| - 1] == '/' then []
    else Basename(p[..|p| - 1]) + [p[|p| - 1]]
  }

  /** A name under a directory has that name as its base name. */
  lemma {:induction false} BasenameUnder(dir: string, name: string)
    requires NoSlash(name)
    ensures Basename(dir + "/" + name) == name
  {
    if name != [] {
      var p := dir + "/" + name;
      var n := |name| - 1;
      assert p[..|p| - 1] == dir + "/" + name[..n];
      BasenameUnder(dir, name[..n]);
      assert name[..n] + [name[n]] == name;
    }
  }

  /** The string cut at every '/': the maximal '/'-free pieces of s, in order; never empty. */
  function Split(s: string): (parts: seq<string>)
    ensures 1 <= |parts|
    ensures forall i :: 0 <= i < |parts| ==> NoSlash(parts[i])
  {
    if s == [] then [[]]
    else
      var rest := Split(s[1..]);
      if s[0] == '/' then [[]] + rest
      else [[s[0]] + rest[0]] + rest[1..]
  }

  /** The parts glued with '/' between consecutive ones. */
  function Join(parts: seq<string>): (s: string)
    requires 1 <= |parts|
  {
    if |parts| == 1 then parts[0] else parts[0] + "/" + Join(parts[1..])
  }

  lemma {:induction false} SplitName(name: string)
    requires NoSlash(name)
    ensures Split(name) == [name]
  {
    if name != [] {
      SplitName(name[1..]);
      assert [name[0]] + name[1..] == name;
    }
  }

  lemma {:induction false} SplitFront(name: string, rest: string)
    requires NoSlash(name)
    ensures Split(name + "/" + rest) == [name] + Split(rest)
  {
    if name == [] {
      assert name + "/" + rest == ['/'] + rest;
      assert (['/'] + rest)[1..] == rest;
    } else {
      var s := name + "/" + rest;
      assert s[1..] == name[1..] + "/" + rest;
      SplitFront(name[1..], rest);
      assert [name[0]] + name[1..] == name;
    }
  }

  /** Splitting a join of '/'-free parts gives the parts back. */
  lemma {:induction false} SplitJoin(parts: seq<string>)
    requires 1 <= |parts|
    requires forall i :: 0 <= i < |parts| ==> NoSlash(parts[i])
    ensures Split(Join(parts)) == parts
  {
    if |parts| == 1 {
      SplitName(parts[0]);
    } else {
      SplitJoin(parts[1..]);
      SplitFront(parts[0], Join(parts[1..]));
    }
  }
}
