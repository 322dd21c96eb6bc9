// Working directories: a path as its components, and normalisation as a fold over them.
module PathModel {
  import opened Collections

  const PATH_MAX: int := 1024

  predicate Text(s: string) { forall i :: 0 <= i < |s| ==> s[i] != '\0' }

  predicate Plain(c: string) { forall i :: 0 <= i < |c| ==> c[i] != '/' && c[i] != '\0' }

  // What a normalised path is made of.
  predicate Name(c: string) { c != "" && c != "." && c != ".." && Plain(c) }

  ghost predicate Names(stack: seq<string>) { forall i :: 0 <= i < |stack| ==> Name(stack[i]) }

  function Tail(stack: seq<string>): string {
    if stack == [] then "" else Tail(stack[..|stack| - 1]) + "/" + stack[|stack| - 1]
  }

  function Render(stack: seq<string>): string { if stack == [] then "/" else Tail(stack) }

  // ---- components ----

  function Slash(s: string): (i: nat)
    ensures i <= |s| && (forall k :: 0 <= k < i ==> s[k] != '/') && (i < |s| ==> s[i] == '/')
  {
    if s == "" || s[0] == '/' then 0 else 1 + Slash(s[1..])
  }

  function Split(s: string): seq<string>
    decreases |s|
  {
    if s == "" then []
    else
      var i := Slash(s);
      if i == |s| then [s] else [s[..i]] + Split(s[i + 1..])
  }

  lemma SlashAt(s: string, i: nat)
    requires i <= |s| && (forall k :: 0 <= k < i ==> s[k] != '/') && (i < |s| ==> s[i] == '/')
    ensures Slash(s) == i
  {
  }

  // ---- the fold ----

  function Step(stack: seq<string>, c: string): Option<seq<string>> {
    if c == "" || c == "." then Some(stack)
    else if c == ".." then Some(if stack == [] then [] else stack[..|stack| - 1])
    else if |Render(stack + [c])| >= PATH_MAX then None
    else Some(stack + [c])
  }

  function Walk(stack: seq<string>, parts: seq<string>): Option<seq<string>>
    decreases |parts|
  {
    if parts == [] then Some(stack)
    else
      match Step(stack, parts[0])
      case None => None
      case Some(next) => Walk(next, parts[1..])
  }

  datatype Result = Ok(stack: seq<string>) | Einval | TooLong

  function Normal(cwd: seq<string>, path: string): Result {
    if path == "" then Einval
    else
      match if path[0] == '/' then Walk([], Split(path[1..])) else Walk(cwd, Split(path))
      case Some(stack) => Ok(stack)
      case None => TooLong
  }

  // ---- what a reachable working directory is ----

  ghost predicate Reachable(stack: seq<string>) { Names(stack) && |Render(stack)| < PATH_MAX }

  lemma RenderPrefix(stack: seq<string>)
    requires stack != []
    ensures |Render(stack[..|stack| - 1])| <= |Render(stack)|
  {
  }

  lemma {:induction false} WalkReachable(stack: seq<string>, parts: seq<string>)
    requires Reachable(stack) && forall i :: 0 <= i < |parts| ==> Plain(parts[i])
    ensures Walk(stack, parts).Some? ==> Reachable(Walk(stack, parts).value)
    decreases |parts|
  {
    if parts != [] {
      if stack != [] { RenderPrefix(stack); }
      var next := Step(stack, parts[0]);
      if next.Some? {
        assert Reachable(next.value);
        WalkReachable(next.value, parts[1..]);
      }
    }
  }

  lemma {:induction false} SplitPlain(s: string)
    requires Text(s)
    ensures forall i :: 0 <= i < |Split(s)| ==> Plain(Split(s)[i])
    decreases |s|
  {
    if s != "" {
      var i := Slash(s);
      assert Plain(s[..i]);
      if i < |s| { SplitPlain(s[i + 1..]); }
    }
  }

  // Every working directory a call can lead to is absolute, short enough, and made of names.
  lemma NormalReachable(cwd: seq<string>, path: string)
    requires Reachable(cwd) && Text(path)
    ensures Normal(cwd, path).Ok? ==> Reachable(Normal(cwd, path).stack)
  {
    if path != "" {
      SplitPlain(path);
      SplitPlain(path[1..]);
      WalkReachable([], Split(path[1..]));
      WalkReachable(cwd, Split(path));
    }
  }

  lemma {:induction false} TailStarts(stack: seq<string>)
    requires stack != []
    ensures Tail(stack) != "" && Tail(stack)[0] == '/'
  {
    if |stack| > 1 { TailStarts(stack[..|stack| - 1]); }
  }

  lemma RenderAbsolute(stack: seq<string>)
    ensures Render(stack) != "" && Render(stack)[0] == '/'
  {
    if stack != [] { TailStarts(stack); }
  }

  // ---- a rendered path splits into its names, whatever follows ----

  lemma SplitFirst(c: string, rest: string)
    requires Plain(c)
    ensures Split(c + "/" + rest) == [c] + Split(rest)
    ensures c != "" ==> Split(c) == [c]
  {
    var s := c + "/" + rest;
    SlashAt(s, |c|);
    assert s[..|c|] == c && s[|c| + 1..] == rest;
    SlashAt(c, |c|);
  }

  lemma {:induction false} TailFront(stack: seq<string>)
    requires stack != []
    ensures Tail(stack) == "/" + stack[0] + Tail(stack[1..])
  {
    var n := |stack| - 1;
    if n > 0 {
      TailFront(stack[..n]);
      assert stack[1..][..n - 1] == stack[..n][1..];
    } else {
      assert stack[..n] == [];
    }
  }

  lemma {:induction false} SplitTail(stack: seq<string>, rest: string)
    requires Names(stack) && stack != []
    ensures Tail(stack) != "" && Split(Tail(stack)[1..] + "/" + rest) == stack + Split(rest)
    decreases |stack|
  {
    hide Tail, Split, Name, Plain;
    var c, more := stack[0], stack[1..];
    assert Name(c) && Names(more);
    NamePlain(c);
    TailFront(stack);
    TailStarts(stack);
    var front := c + Tail(more);
    assert Tail(stack)[1..] == front;
    var after := rest;
    if more == [] {
      NoTail();
      assert front + "/" + rest == c + "/" + after;
    } else {
      TailStarts(more);
      var t := Tail(more);
      after := t[1..] + "/" + rest;
      Regroup(c, t, rest);
      SplitTail(more, rest);
    }
    SplitFirst(c, after);
    assert Split(after) == more + Split(rest) by { if more == [] { assert more + Split(rest) == Split(rest); } }
    assert [c] + (more + Split(rest)) == stack + Split(rest);
  }

  lemma NamePlain(c: string)
    requires Name(c)
    ensures Plain(c)
  {
  }

  lemma NoTail()
    ensures Tail([]) == ""
  {
  }

  lemma Regroup(c: string, t: string, rest: string)
    requires t != "" && t[0] == '/'
    ensures c + t + "/" + rest == c + "/" + (t[1..] + "/" + rest)
  {
    assert t == "/" + t[1..];
  }

  lemma {:induction false} SplitRendered(stack: seq<string>)
    requires Names(stack) && stack != []
    ensures Tail(stack) != "" && Split(Tail(stack)[1..]) == stack
    decreases |stack|
  {
    var c, more := stack[0], stack[1..];
    TailFront(stack);
    TailStarts(stack);
    assert Tail(stack)[1..] == c + Tail(more);
    if more == [] {
      assert c + Tail(more) == c;
      SplitFirst(c, "");
    } else {
      TailStarts(more);
      assert c + Tail(more) == c + "/" + Tail(more)[1..];
      SplitFirst(c, Tail(more)[1..]);
      SplitRendered(more);
    }
  }

  // ---- pushing names that fit ----

  lemma {:induction false} WalkNames(stack: seq<string>, names: seq<string>, rest: seq<string>)
    requires Reachable(stack + names) && Names(names)
    ensures Walk(stack, names + rest) == Walk(stack + names, rest)
    decreases |names|
  {
    if names == [] {
      assert names + rest == rest && stack + names == stack;
    } else {
      var c := names[0];
      Shorter(stack + [c], names[1..]);
      assert stack + names == (stack + [c]) + names[1..];
      assert (names + rest)[0] == c && (names + rest)[1..] == names[1..] + rest;
      WalkNames(stack + [c], names[1..], rest);
    }
  }

  lemma {:induction false} Shorter(stack: seq<string>, more: seq<string>)
    ensures |Render(stack)| <= |Render(stack + more)|
    decreases |more|
  {
    if more == [] {
      assert stack + more == stack;
    } else {
      var all := stack + more;
      assert all[..|all| - 1] == stack + more[..|more| - 1];
      Shorter(stack, more[..|more| - 1]);
      RenderPrefix(all);
    }
  }

  // Normalising a normalised path changes nothing, from wherever.
  lemma Idempotent(cwd: seq<string>, stack: seq<string>)
    requires Reachable(stack)
    ensures Normal(cwd, Render(stack)) == Ok(stack)
  {
    RenderAbsolute(stack);
    if stack != [] {
      SplitRendered(stack);
      assert stack + [] == stack && [] + stack == stack;
      WalkNames([], stack, []);
    }
  }

  // ---- the verbatim join ----

  function Join(cwd: seq<string>, path: string): string {
    Render(cwd) + (if |Render(cwd)| > 1 then "/" else "") + path
  }

  lemma RenderOne(cwd: seq<string>)
    requires Names(cwd)
    ensures |Render(cwd)| > 1 <==> cwd != []
  {
  }

  lemma JoinIs(cwd: seq<string>, path: string)
    requires Names(cwd)
    ensures cwd == [] ==> Join(cwd, path) == "/" + path
    ensures cwd != [] ==> Tail(cwd) != "" && Tail(cwd)[0] == '/' && Join(cwd, path) == Tail(cwd) + "/" + path
  {
    RenderOne(cwd);
    if cwd != [] { TailStarts(cwd); }
  }

  lemma NormalAbsolute(other: seq<string>, rest: string)
    ensures Normal(other, "/" + rest) == match Walk([], Split(rest)) case Some(stack) => Ok(stack) case None => TooLong
  {
    hide Walk, Split;
    assert ("/" + rest)[1..] == rest;
  }

  // The join names what the relative path names.
  lemma JoinIsRelative(cwd: seq<string>, other: seq<string>, path: string)
    requires Reachable(cwd) && path != "" && path[0] != '/'
    ensures Normal(other, Join(cwd, path)) == Normal(cwd, path)
  {
    hide Walk, Split, Render, Tail, Join, Names;
    JoinIs(cwd, path);
    if cwd == [] {
      NormalAbsolute(other, path);
    } else {
      SplitTail(cwd, path);
      var rest := Tail(cwd)[1..] + "/" + path;
      assert Tail(cwd) + "/" + path == "/" + rest;
      NormalAbsolute(other, rest);
      assert [] + cwd == cwd;
      WalkNames([], cwd, Split(path));
    }
  }

  // ---- what single components do ----

  lemma {:induction false} WalkJoin(stack: seq<string>, x: seq<string>, y: seq<string>)
    ensures Walk(stack, x + y) == match Walk(stack, x) case None => None case Some(next) => Walk(next, y)
    decreases |x|
  {
    if x == [] {
      assert x + y == y;
    } else {
      assert (x + y)[0] == x[0] && (x + y)[1..] == x[1..] + y;
      var next := Step(stack, x[0]);
      if next.Some? { WalkJoin(next.value, x[1..], y); }
    }
  }

  // Empty components and dots may be left out anywhere.
  lemma DotsVanish(stack: seq<string>, x: seq<string>, c: string, y: seq<string>)
    requires c == "" || c == "."
    ensures Walk(stack, x + [c] + y) == Walk(stack, x + y)
  {
    WalkJoin(stack, x, [c] + y);
    WalkJoin(stack, x, y);
    assert x + [c] + y == x + ([c] + y);
    assert ([c] + y)[1..] == y;
  }

  // A name that fits and the dots behind it undo each other; the root is its own parent.
  lemma ParentUndoes(stack: seq<string>, c: string, y: seq<string>)
    requires Name(c) && |Render(stack + [c])| < PATH_MAX
    ensures Walk(stack, [c, ".."] + y) == Walk(stack, y) && Walk([], [".."] + y) == Walk([], y)
  {
    hide Render;
    assert ([c, ".."] + y)[1..] == [".."] + y && ([".."] + y)[1..] == y;
    assert (stack + [c])[..|stack|] == stack;
  }

  // A component is refused exactly when its name makes the path too long.
  lemma RefusedExactly(stack: seq<string>, c: string)
    requires Plain(c)
    ensures Step(stack, c) == None <==> Name(c) && |Render(stack + [c])| >= PATH_MAX
  {
    hide Render;
  }
}
