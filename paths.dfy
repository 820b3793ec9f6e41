/** The part of `pathlib.PureWindowsPath` the core relies on: a path string is split
    into parts on both `\` and `/`, empty parts (from doubled or trailing separators)
    and `.` parts are dropped, and `name`, `parent`, `stem` and `suffix` are read off
    the parts. Drive letters and UNC anchors are not modelled (see README). */
module WindowsPaths {

  predicate IsSep(c: char) {
    c == '\\' || c == '/'
  }

  /** A part as `PureWindowsPath` keeps it: non-empty, free of separators, not `.`. */
  predicate Clean(w: string) {
    w != "" && w != "." && forall i :: 0 <= i < |w| ==> !IsSep(w[i])
  }

  /** Index of the first separator of `s`, or `|s|` when there is none. */
  function FirstSep(s: string): (r: nat)
    ensures r <= |s|
    ensures r < |s| ==> IsSep(s[r])
    ensures forall j :: 0 <= j < r ==> !IsSep(s[j])
    decreases |s|
  {
    if s == [] then 0
    else if IsSep(s[0]) then 0
    else 1 + FirstSep(s[1..])
  }

  /** The raw pieces between separators, empty pieces included. */
  function SplitSeps(s: string): (r: seq<string>)
    ensures |r| >= 1
    decreases |s|
  {
    var i := FirstSep(s);
    if i == |s| then [s] else [s[..i]] + SplitSeps(s[i + 1..])
  }

  /** Drops the pieces `PureWindowsPath` ignores: empty ones and `.`. */
  function KeepParts(pieces: seq<string>): (r: seq<string>)
    ensures |r| <= |pieces|
  {
    if pieces == [] then []
    else (if pieces[0] == "" || pieces[0] == "." then [] else [pieces[0]]) + KeepParts(pieces[1..])
  }

  /** `PureWindowsPath(s).parts` (without an anchor). */
  function Parts(s: string): seq<string> {
    KeepParts(SplitSeps(s))
  }

  /** The `name` of the `k`-th `parent` (`k == 0`: the path itself): its `k`-th part
      from the end, or `""` once the parents run out (the parent of `a` is `.`,
      whose name is empty). */
  function NameAt(parts: seq<string>, k: nat): string {
    if k < |parts| then parts[|parts| - 1 - k] else ""
  }

  /** `PureWindowsPath(s).name` */
  function Name(s: string): string {
    NameAt(Parts(s), 0)
  }

  /** The parts of `PureWindowsPath(s).parent`. */
  function ParentParts(s: string): seq<string> {
    var ps := Parts(s);
    if ps == [] then [] else ps[..|ps| - 1]
  }

  /** Index of the last `.` of `name`, or -1 (`str.rfind`). */
  function LastDot(name: string): (r: int)
    ensures -1 <= r < |name|
    ensures r >= 0 ==> name[r] == '.'
    ensures forall j :: r < j < |name| ==> name[j] != '.'
    decreases |name|
  {
    if name == [] then -1
    else if name[|name| - 1] == '.' then |name| - 1
    else LastDot(name[..|name| - 1])
  }

  /** `PurePath.suffix` of a file name: from the last dot, unless that dot is the
      first or the last character. */
  function Suffix(name: string): string {
    var i := LastDot(name);
    if 0 < i < |name| - 1 then name[i..] else ""
  }

  /** `PurePath.stem` of a file name: the name without its suffix. */
  function Stem(name: string): string {
    var i := LastDot(name);
    if 0 < i < |name| - 1 then name[..i] else name
  }

  lemma StemSuffix(name: string)
    ensures Stem(name) + Suffix(name) == name
    ensures Suffix(name) == "" || (|Suffix(name)| >= 2 && Suffix(name)[0] == '.')
  {
  }

  /** A separator splits the pieces exactly where it stands. */
  lemma {:induction false} SplitSepsJoin(a: string, c: char, b: string)
    requires IsSep(c)
    ensures SplitSeps(a + [c] + b) == SplitSeps(a) + SplitSeps(b)
    decreases |a|
  {
    var s := a + [c] + b;
    var i := FirstSep(a);
    FirstSepPrefix(a, [c] + b);
    assert s == a + ([c] + b);
    if i == |a| {
      assert s[i + 1..] == b;
      assert s[..i] == a;
    } else {
      assert s[..i] == a[..i];
      assert s[i + 1..] == a[i + 1..] + [c] + b;
      SplitSepsJoin(a[i + 1..], c, b);
    }
  }

  lemma {:induction false} FirstSepPrefix(a: string, t: string)
    ensures FirstSep(a + t) == if FirstSep(a) < |a| then FirstSep(a) else |a| + FirstSep(t)
    decreases |a|
  {
    if a != [] {
      assert (a + t)[1..] == a[1..] + t;
      FirstSepPrefix(a[1..], t);
    } else {
      assert a + t == t;
    }
  }

  lemma {:induction false} KeepPartsAppend(x: seq<string>, y: seq<string>)
    ensures KeepParts(x + y) == KeepParts(x) + KeepParts(y)
    decreases |x|
  {
    if x != [] {
      assert (x + y)[1..] == x[1..] + y;
      KeepPartsAppend(x[1..], y);
    } else {
      assert x + y == y;
    }
  }

  /** `PureWindowsPath(a + "\\" + b).parts` (or with `/`) is `a`'s parts then `b`'s. */
  lemma PartsJoin(a: string, c: char, b: string)
    requires IsSep(c)
    ensures Parts(a + [c] + b) == Parts(a) + Parts(b)
  {
    SplitSepsJoin(a, c, b);
    KeepPartsAppend(SplitSeps(a), SplitSeps(b));
  }

  /** A clean string is a path of exactly one part, itself; the empty string has none. */
  lemma CleanParts(w: string)
    ensures Clean(w) ==> Parts(w) == [w]
    ensures Parts("") == []
  {
    assert FirstSep("") == 0;
    if Clean(w) {
      assert FirstSep(w) == |w|;
    }
  }

  /** Every part is clean. */
  lemma {:induction false} PartsAreClean(s: string)
    ensures forall k :: 0 <= k < |Parts(s)| ==> Clean(Parts(s)[k])
    decreases |s|
  {
    var i := FirstSep(s);
    if i < |s| {
      var head := s[..i];
      PartsAreClean(s[i + 1..]);
      assert SplitSeps(s) == [head] + SplitSeps(s[i + 1..]);
      KeepPartsAppend([head], SplitSeps(s[i + 1..]));
      assert Parts(s) == KeepParts([head]) + Parts(s[i + 1..]);
      assert [head][1..] == [];
      assert KeepParts([head]) == if head == "" || head == "." then [] else [head];
      assert forall j :: 0 <= j < |head| ==> head[j] == s[j] && !IsSep(head[j]);
    }
  }
}
