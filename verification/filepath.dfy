/** The parts of Go's `path/filepath` the configuration loader uses, for
    Unix paths (separator `/`, no volume names). */
module FilePath {
  import opened Strings

  /** Index of the last `c` in `s`, or -1 when there is none. */
  function LastIndex(s: string, c: char): (r: int)
    ensures -1 <= r < |s|
    ensures r >= 0 ==> s[r] == c
    ensures forall i :: r < i < |s| ==> s[i] != c
    decreases |s|
  {
    if |s| == 0 then -1
    else if s[|s| - 1] == c then |s| - 1
    else LastIndex(s[..|s| - 1], c)
  }

  /** `filepath.Base`: the last element of the path after trailing slashes
      are dropped; "." for the empty path and "/" for a path of slashes. */
  function Base(path: string): (r: string)
    ensures r != ""
    ensures r == "/" || '/' !in r
    ensures path == "" ==> r == "."
  {
    if path == "" then "."
    else
      var t := TrimRight(path, '/');
      if t == "" then "/" else t[LastIndex(t, '/') + 1..]
  }

  /** The base of `dir/name` (and of a bare `name`) is `name`. */
  lemma BaseOfLastElement(dir: string, name: string)
    requires name != "" && '/' !in name
    ensures Base(name) == name
    ensures Base(dir + "/" + name) == name
  {
    var p := dir + "/" + name;
    assert TrimRight(p, '/') == p;
    assert TrimRight(name, '/') == name;
    assert p[|dir|] == '/';
    assert forall i :: |dir| < i < |p| ==> p[i] == name[i - |dir| - 1];
    assert LastIndex(p, '/') == |dir|;
    assert p[|dir| + 1..] == name;
  }

  /** Lexical clean-up of a list of path elements, as `filepath.Clean` does:
      empty and `.` elements vanish, `..` removes the element before it,
      a `..` at the root of an absolute path vanishes, and a leading `..`
      of a relative path stays. */
  function Reduce(elems: seq<string>, rooted: bool, stack: seq<string>): seq<string>
    decreases |elems|
  {
    if |elems| == 0 then stack
    else
      var e := elems[0];
      if e == "" || e == "." then Reduce(elems[1..], rooted, stack)
      else if e == ".." then
        if |stack| > 0 && stack[|stack| - 1] != ".." then Reduce(elems[1..], rooted, stack[..|stack| - 1])
        else if rooted then Reduce(elems[1..], rooted, stack)
        else Reduce(elems[1..], rooted, stack + [".."])
      else Reduce(elems[1..], rooted, stack + [e])
  }

  /** `filepath.Clean`. */
  function Clean(path: string): (r: string)
    ensures r != ""
    ensures path != "" && path[0] == '/' ==> r[0] == '/'
  {
    if path == "" then "."
    else
      var rooted := path[0] == '/';
      var body := Join(Reduce(Split(path, '/'), rooted, []), '/');
      if rooted then "/" + body else if body == "" then "." else body
  }

  /** `filepath.Dir`: the cleaned path up to and including its last `/`. */
  function Dir(path: string): (r: string)
    ensures r != ""
    ensures '/' !in path ==> r == "."
  {
    var i := LastIndex(path, '/');
    assert '/' !in path ==> i == -1 by {
      if i >= 0 { assert path[i] in path; }
    }
    Clean(path[..i + 1])
  }

  /** An element `Clean` keeps as it is. */
  predicate PlainElement(e: string) {
    e != "" && e != "." && e != ".."
  }

  /** Empty elements vanish wherever they stand. */
  lemma {:induction false} ReduceTrailingEmpty(elems: seq<string>, rooted: bool, stack: seq<string>)
    ensures Reduce(elems + [""], rooted, stack) == Reduce(elems, rooted, stack)
    decreases |elems|
  {
    if |elems| == 0 {
      assert ([] + [""])[1..] == [];
    } else {
      var e := elems[0];
      assert (elems + [""])[0] == e && (elems + [""])[1..] == elems[1..] + [""];
      if e == "" || e == "." {
        ReduceTrailingEmpty(elems[1..], rooted, stack);
      } else if e == ".." {
        if |stack| > 0 && stack[|stack| - 1] != ".." {
          ReduceTrailingEmpty(elems[1..], rooted, stack[..|stack| - 1]);
        } else if rooted {
          ReduceTrailingEmpty(elems[1..], rooted, stack);
        } else {
          ReduceTrailingEmpty(elems[1..], rooted, stack + [".."]);
        }
      } else {
        ReduceTrailingEmpty(elems[1..], rooted, stack + [e]);
      }
    }
  }

  /** Plain elements are all kept, in order. */
  lemma {:induction false} ReducePlain(elems: seq<string>, rooted: bool, stack: seq<string>)
    requires forall i :: 0 <= i < |elems| ==> PlainElement(elems[i])
    ensures Reduce(elems, rooted, stack) == stack + elems
    decreases |elems|
  {
    if |elems| > 0 {
      ReducePlain(elems[1..], rooted, stack + [elems[0]]);
      assert stack + [elems[0]] + elems[1..] == stack + elems;
    }
  }

  /** A trailing slash does not change the cleaned form of a non-empty path. */
  lemma CleanTrailingSlash(path: string)
    requires path != ""
    ensures Clean(path + "/") == Clean(path)
  {
    SplitTrailing(path, '/');
    ReduceTrailingEmpty(Split(path, '/'), path[0] == '/', []);
    assert (path + "/")[0] == path[0];
  }

  /** A path whose elements are all plain is already clean, rooted or not. */
  lemma CleanOfCleanPath(rest: string)
    requires forall i :: 0 <= i < |Split(rest, '/')| ==> PlainElement(Split(rest, '/')[i])
    ensures Clean("/" + rest) == "/" + rest
    ensures Clean(rest) == rest
  {
    var p := "/" + rest;
    SplitFirst("", rest, '/');
    assert "" + ['/'] + rest == p;
    var elems := Split(rest, '/');
    assert Split(p, '/') == [""] + elems;
    assert ([""] + elems)[1..] == elems;
    assert Reduce(Split(p, '/'), true, []) == Reduce(elems, true, []);
    ReducePlain(elems, true, []);
    assert p[0] == '/' && Clean(p) == "/" + Join(Reduce(Split(p, '/'), true, []), '/');
    ReducePlain(elems, false, []);
    JoinSplit(rest, '/');
    assert [] + elems == elems;
    assert Join(Reduce(elems, true, []), '/') == rest;
    assert PlainElement(elems[0]);
    assert rest != "";
    assert rest[0] != '/';
  }

  /** The directory of `dir/name` is `dir` cleaned, with "/" for a `dir`
      of "": it is what precedes the last slash. */
  lemma DirOfJoin(dir: string, name: string)
    requires name != "" && '/' !in name
    ensures Dir(dir + "/" + name) == Clean(dir + "/")
    ensures dir != "" ==> Dir(dir + "/" + name) == Clean(dir)
  {
    var p := dir + "/" + name;
    assert p[|dir|] == '/';
    assert forall i :: |dir| < i < |p| ==> p[i] == name[i - |dir| - 1];
    assert LastIndex(p, '/') == |dir|;
    assert p[..|dir| + 1] == dir + "/";
    if dir != "" {
      CleanTrailingSlash(dir);
    }
  }
}
