/** File name helpers (util/FileUtil.java): the main name of a file and path normalisation. */
module FileUtil {
  import opened Wrappers
  import opened Text

  // ------------------------------------------------------------------ getName

  /** `FileUtil.getName(String)`: blank names and names without a dot come back unchanged;
      otherwise the text before the last dot. */
  function GetName(fileName: Option<string>): (r: Option<string>)
    ensures IsBlank(fileName) || '.' !in fileName.value ==> r == fileName
    ensures !IsBlank(fileName) && '.' in fileName.value ==>
      r.Some? && exists ext :: fileName.value == r.value + "." + ext && '.' !in ext
  {
    if IsBlank(fileName) || '.' !in fileName.value then fileName
    else
      var name := fileName.value;
      var k := LastIndexOf(name, '.');
      assert name == name[..k] + "." + name[k + 1..];
      Some(name[..k])
  }

  // ------------------------------------------------------------------ separators

  predicate IsSeparator(c: char) {
    c == '/' || c == '\\'
  }

  /** The text with every separator removed. */
  function NonSeparators(s: string): string {
    if s == [] then [] else (if IsSeparator(s[0]) then [] else [s[0]]) + NonSeparators(s[1..])
  }

  /** Drops the separators at the front. */
  function DropSeparators(s: string): (r: string)
    ensures |r| <= |s| && (r == [] || !IsSeparator(r[0]))
    ensures NonSeparators(r) == NonSeparators(s)
  {
    if s != [] && IsSeparator(s[0]) then DropSeparators(s[1..]) else s
  }

  /** `path.replaceAll("[/\\\\]{1,}", "/")`: every run of `/` and `\` becomes one `/`. The
      result holds no backslash and no two adjacent slashes, and its other characters are
      those of `s`, in order. */
  function CollapseSeparators(s: string): (r: string)
    ensures '\\' !in r
    ensures forall i :: 0 <= i < |r| - 1 && r[i] == '/' ==> r[i + 1] != '/'
    ensures NonSeparators(r) == NonSeparators(s)
    ensures r == [] || s == [] || (r[0] == '/' <==> IsSeparator(s[0]))
    decreases |s|
  {
    if s == [] then []
    else if IsSeparator(s[0]) then
      var rest := DropSeparators(s[1..]);
      var t := CollapseSeparators(rest);
      assert t == [] || t[0] != '/';
      ['/'] + t
    else [s[0]] + CollapseSeparators(s[1..])
  }

  // ------------------------------------------------------------------ prefix

  /** What `normalize` splits off the front of the trimmed path, and what it keeps. */
  datatype Parts = Parts(prefix: string, body: string)

  /** The prefix steps of `normalize`: the text up to and including the first `:` is the
      prefix when it holds no `/`; then a leading `/` moves to the end of the prefix. */
  function SplitPrefix(path: string): (r: Parts)
  {
    var k := IndexOf(path, ':');
    var p := if k != -1 && '/' !in path[..k + 1] then Parts(path[..k + 1], path[k + 1..])
             else Parts("", path);
    if |p.body| > 0 && p.body[0] == '/' then Parts(p.prefix + "/", p.body[1..]) else p
  }

  /** The prefix and the body together are the whole path; the prefix is a `:`-terminated
      head holding no `/` and no earlier `:`, possibly followed by one `/`; a slash right
      after that head, or at the front when there is none, stays in the prefix. */
  lemma SplitPrefixParts(path: string)
    ensures SplitPrefix(path).prefix + SplitPrefix(path).body == path
    ensures var head := HeadOf(path);
      SplitPrefix(path).prefix == head || SplitPrefix(path).prefix == head + "/"
    ensures var head := HeadOf(path);
      SplitPrefix(path).prefix == head + "/" <==> (|path| > |head| && path[|head|] == '/')
  {
    var k := IndexOf(path, ':');
    var head := HeadOf(path);
    if k != -1 && '/' !in path[..k + 1] {
      assert path == path[..k + 1] + path[k + 1..];
    }
    var p := if k != -1 && '/' !in path[..k + 1] then Parts(path[..k + 1], path[k + 1..])
             else Parts("", path);
    assert p.prefix == head && p.body == path[|head|..];
    if |p.body| > 0 && p.body[0] == '/' {
      assert p.prefix + "/" + p.body[1..] == p.prefix + p.body;
    }
  }

  /** The drive or scheme head of a path: through the first `:`, when that stretch holds no
      `/`; otherwise empty. */
  function HeadOf(path: string): (head: string)
    ensures head == [] || (head[|head| - 1] == ':' && '/' !in head && ':' !in head[..|head| - 1])
    ensures head <= path
  {
    var k := IndexOf(path, ':');
    if k != -1 && '/' !in path[..k + 1] then
      assert path[..k + 1][..k] == path[..k];
      path[..k + 1]
    else []
  }

  // ------------------------------------------------------------------ resolving . and ..

  /** The state of resolving segments: `ups` unmatched `..`, then the surviving `normals`. */
  datatype Resolution = Resolution(ups: nat, normals: seq<string>)

  predicate IsNormal(segment: string) {
    segment != "." && segment != ".."
  }

  /** Left to right: `.` is dropped, `..` removes the nearest normal segment to its left or,
      when there is none, is kept, and a normal segment is appended. */
  function StepLeft(st: Resolution, segment: string): Resolution {
    if segment == "." then st
    else if segment == ".." then
      if st.normals != [] then Resolution(st.ups, st.normals[..|st.normals| - 1])
      else Resolution(st.ups + 1, st.normals)
    else Resolution(st.ups, st.normals + [segment])
  }

  /** The reference resolution of a segment list, read left to right. */
  function ResolveLeft(segments: seq<string>): Resolution {
    if segments == [] then Resolution(0, [])
    else StepLeft(ResolveLeft(segments[..|segments| - 1]), segments[|segments| - 1])
  }

  /** One turn of the right-to-left loop in `normalize`: `tops` counts pending `..`. */
  function StepRight(segment: string, st: Resolution): Resolution {
    if segment == "." then st
    else if segment == ".." then Resolution(st.ups + 1, st.normals)
    else if st.ups > 0 then Resolution(st.ups - 1, st.normals)
    else Resolution(st.ups, [segment] + st.normals)
  }

  /** What the loop in `normalize` computes, reading the segments right to left. */
  function ResolveRight(segments: seq<string>): Resolution {
    if segments == [] then Resolution(0, [])
    else StepRight(segments[0], ResolveRight(segments[1..]))
  }

  /** The two directions of reading commute one step at a time. */
  lemma StepsCommute(st: Resolution, x: string, y: string)
    ensures StepRight(y, StepLeft(st, x)) == StepLeft(StepRight(y, st), x)
  {
    if x == ".." && y != "." && y != ".." && st.ups == 0 && st.normals != [] {
      assert ([y] + st.normals)[..|st.normals|] == [y] + st.normals[..|st.normals| - 1];
    }
    if x != "." && x != ".." && y != "." && y != ".." && st.ups == 0 {
      assert [y] + (st.normals + [x]) == ([y] + st.normals) + [x];
    }
  }

  lemma {:induction false} ResolveRightSnoc(segments: seq<string>, x: string)
    ensures ResolveRight(segments + [x]) == StepLeft(ResolveRight(segments), x)
  {
    if segments == [] {
      assert [] + [x] == [x];
    } else {
      assert (segments + [x])[1..] == segments[1..] + [x];
      ResolveRightSnoc(segments[1..], x);
      StepsCommute(ResolveRight(segments[1..]), x, segments[0]);
    }
  }

  /** The right-to-left loop with its `tops` counter resolves exactly as the left-to-right
      reading: each `..` cancels the nearest normal segment to its left. */
  lemma {:induction false} RightEqualsLeft(segments: seq<string>)
    ensures ResolveRight(segments) == ResolveLeft(segments)
  {
    if segments != [] {
      var init := segments[..|segments| - 1];
      RightEqualsLeft(init);
      assert init + [segments[|segments| - 1]] == segments;
      ResolveRightSnoc(init, segments[|segments| - 1]);
    }
  }

  /** No `.` or `..` survives among the normal segments, and each of them is one of the
      input segments. */
  lemma {:induction false} ResolvedNormals(segments: seq<string>)
    ensures forall k :: 0 <= k < |ResolveLeft(segments).normals| ==>
      IsNormal(ResolveLeft(segments).normals[k]) && ResolveLeft(segments).normals[k] in segments
  {
    if segments != [] {
      var init := segments[..|segments| - 1];
      ResolvedNormals(init);
      var st := ResolveLeft(init);
      forall k | 0 <= k < |ResolveLeft(segments).normals|
        ensures IsNormal(ResolveLeft(segments).normals[k]) && ResolveLeft(segments).normals[k] in segments
      {
        var n := ResolveLeft(segments).normals;
        if k < |st.normals| {
          assert n[k] == st.normals[k];
          assert st.normals[k] in init;
        } else {
          assert n[k] == segments[|segments| - 1];
        }
      }
    }
  }

  /** A normal segment followed by `..` vanishes, and `.` changes nothing. */
  lemma ParentCancels(segments: seq<string>, x: string)
    requires IsNormal(x)
    ensures ResolveLeft(segments + [x, ".."]) == ResolveLeft(segments)
    ensures ResolveLeft(segments + ["."]) == ResolveLeft(segments)
  {
    var s := segments + [x, ".."];
    assert s[..|s| - 1] == segments + [x];
    assert (segments + [x])[..|segments|] == segments;
    assert (segments + ["."])[..|segments|] == segments;
    assert ResolveLeft(segments + [x]).normals == ResolveLeft(segments).normals + [x];
  }

  /** `..` repeated `n` times. */
  function Ups(n: nat): (r: seq<string>)
    ensures |r| == n && forall k :: 0 <= k < n ==> r[k] == ".."
  {
    if n == 0 then [] else [".."] + Ups(n - 1)
  }

  /** The segments `normalize` joins: the retained `..`, all at the front, then the normal
      segments. */
  function Resolved(segments: seq<string>): seq<string> {
    Ups(ResolveLeft(segments).ups) + ResolveLeft(segments).normals
  }

  // ------------------------------------------------------------------ normalize

  /** The path `normalize` returns: null for null; otherwise separators collapsed and the
      text trimmed, the prefix split off, and the resolved segments joined with `/`. */
  function NormalizedPath(path: Option<string>): (r: Option<string>)
    ensures path.None? <==> r.None?
  {
    match path
    case None => None
    case Some(p) =>
      var parts := SplitPrefix(Trim(CollapseSeparators(p)));
      Some(parts.prefix + Join(Resolved(Split(parts.body, '/')), "/"))
  }

  /** The normalised body has no empty segment, no `.` and no `..` except at the front:
      splitting it on `/` gives back exactly the resolved segments. */
  lemma NormalizedBody(body: string)
    ensures Split(Join(Resolved(Split(body, '/')), "/"), '/') == Resolved(Split(body, '/'))
    ensures forall k :: 0 <= k < |Resolved(Split(body, '/'))| ==>
      Resolved(Split(body, '/'))[k] != "."
  {
    var segments := Split(body, '/');
    ResolvedNormals(segments);
    var st := ResolveLeft(segments);
    var r := Resolved(segments);
    forall k | 0 <= k < |r| ensures r[k] != [] && '/' !in r[k] && r[k] != "."
    {
      if k >= st.ups {
        assert r[k] == st.normals[k - st.ups];
        assert r[k] in segments;
      }
    }
    SplitJoin(r, '/');
  }

  /** `FileUtil.normalize(String)`: collapse and trim, split off the prefix, resolve the
      segments and join them with `/`. */
  method Normalize(path: Option<string>) returns (r: Option<string>)
    ensures r == NormalizedPath(path)
  {
    if path.None? {
      return None;
    }
    var pathToUse := Trim(CollapseSeparators(path.value));
    var prefix;
    prefix, pathToUse := StripPrefix(pathToUse);
    var paths := Split(pathToUse, '/');
    var pathElements := ResolveSegments(paths);
    return Some(prefix + Join(pathElements, "/"));
  }

  /** The prefix statements of `normalize`, reassigning `prefix` and `pathToUse`. */
  method StripPrefix(path: string) returns (prefix: string, pathToUse: string)
    ensures Parts(prefix, pathToUse) == SplitPrefix(path)
  {
    pathToUse := path;
    var prefixIndex := IndexOf(pathToUse, ':');
    prefix := "";
    if prefixIndex != -1 {
      prefix := pathToUse[..prefixIndex + 1];
      if '/' in prefix {
        prefix := "";
      } else {
        pathToUse := pathToUse[prefixIndex + 1..];
      }
    }
    if |pathToUse| > 0 && pathToUse[0] == '/' {
      prefix := prefix + "/";
      pathToUse := pathToUse[1..];
    }
  }

  /** The segment loops of `normalize`: right to left with the `tops` counter, inserting
      each surviving segment at the front, then one `..` at the front per unmatched `tops`. */
  method ResolveSegments(paths: seq<string>) returns (pathElements: seq<string>)
    ensures pathElements == Resolved(paths)
  {
    pathElements := [];
    var tops: nat := 0;
    var i := |paths| - 1;
    while i >= 0
      invariant -1 <= i < |paths|
      invariant Resolution(tops, pathElements) == ResolveRight(paths[i + 1..])
    {
      var element := paths[i];
      assert paths[i..] == [element] + paths[i + 1..];
      if element == "." {
      } else if element == ".." {
        tops := tops + 1;
      } else {
        if tops > 0 {
          tops := tops - 1;
        } else {
          pathElements := [element] + pathElements;
        }
      }
      i := i - 1;
    }
    assert paths[0..] == paths;
    RightEqualsLeft(paths);

    ghost var normals := pathElements;
    for k := 0 to tops
      invariant pathElements == Ups(k) + normals
    {
      pathElements := [".."] + pathElements;
    }
  }
}
