// globfile.c: the working directory and its normalisation, edited in place in C strings.
module WorkingDir {
  import opened Collections
  import opened PathModel

  const EINVAL: int := 22
  const EFAULT: int := 14
  const ENAMETOOLONG: int := 91
  const ERANGE: int := 34

  // A C string in a buffer.
  ghost predicate Holds(a: array<char>, s: string)
    reads a
  {
    |s| < a.Length && Text(s) && a[|s|] == '\0' && forall i :: 0 <= i < |s| ==> a[i] == s[i]
  }

  method StrLen(a: array<char>, ghost s: string) returns (n: nat)
    requires Holds(a, s)
    ensures n == |s|
  {
    n := 0;
    while a[n] != '\0'
      invariant 0 <= n <= |s|
      decreases |s| - n
    {
      n := n + 1;
    }
  }

  // memcpy of s to a + at, and the terminator.
  method Put(a: array<char>, at: nat, s: string)
    requires at + |s| < a.Length
    modifies a
    ensures forall i :: 0 <= i < at ==> a[i] == old(a[i])
    ensures (forall i :: 0 <= i < |s| ==> a[at + i] == s[i]) && a[at + |s|] == '\0'
  {
    var i := 0;
    while i < |s|
      invariant 0 <= i <= |s|
      invariant forall j :: 0 <= j < at ==> a[j] == old(a[j])
      invariant forall j :: 0 <= j < i ==> a[at + j] == s[j]
    {
      a[at + i] := s[i];
      i := i + 1;
    }
    a[at + |s|] := '\0';
  }

  lemma {:induction false} TailText(stack: seq<string>)
    requires Names(stack)
    ensures Text(Tail(stack))
  {
    if stack != [] {
      TailText(stack[..|stack| - 1]);
      assert Name(stack[|stack| - 1]);
    }
  }

  // What a push adds, and that nothing more than the buffer takes is refused.
  lemma Pushed(stack: seq<string>, c: string)
    requires Names(stack) && Name(c)
    ensures Render(stack + [c]) == (if |Render(stack)| > 1 then Render(stack) + "/" else "/") + c
    ensures Names(stack + [c]) && Text(Render(stack + [c])) && (|Render(stack)| <= 1 ==> Render(stack) == "/")
  {
    RenderOne(stack);
    assert (stack + [c])[..|stack|] == stack;
    assert Tail(stack + [c]) == Tail(stack) + "/" + c;
    if stack == [] { assert Tail(stack + [c]) == "/" + c; }
    TailText(stack + [c]);
  }

  method AppendComponent(path: array<char>, component: string, ghost stack: seq<string>) returns (ok: bool)
    requires path.Length == PATH_MAX && Names(stack) && Holds(path, Render(stack)) && Name(component)
    modifies path
    ensures ok <==> |Render(stack + [component])| < PATH_MAX
    ensures ok ==> Holds(path, Render(stack + [component]))
  {
    hide Render, Names, Name, Text;
    var used := StrLen(path, Render(stack));
    Pushed(stack, component);
    if used > 1 {
      if used + 1 >= PATH_MAX { return false; }
      path[used] := '/';
      used := used + 1;
      path[used] := '\0';
    }
    if used + |component| >= PATH_MAX { return false; }
    Put(path, used, component);
    ok := true;
  }

  function Parent(stack: seq<string>): seq<string> { if stack == [] then [] else stack[..|stack| - 1] }

  // The last separator of a rendered path stands before its last name.
  lemma LastSlash(stack: seq<string>)
    requires Names(stack) && stack != []
    ensures var t := Tail(Parent(stack)); var s := Render(stack);
            |t| < |s| && s[|t|] == '/' && s[..|t|] == t && (forall i :: |t| < i < |s| ==> s[i] != '/')
            && Text(t) && (t == "" <==> |stack| == 1) && s != "/"
  {
    var n := |stack| - 1;
    assert Name(stack[n]);
    TailText(stack[..n]);
    if n > 0 { TailStarts(stack[..n]); }
  }

  method PopComponent(path: array<char>, ghost stack: seq<string>)
    requires path.Length == PATH_MAX && Names(stack) && Holds(path, Render(stack))
    modifies path
    ensures Holds(path, Render(Parent(stack)))
  {
    hide Names, Tail;
    if stack != [] { LastSlash(stack); }
    if path[0] == '/' && path[1] == '\0' { return; }
    assert stack != [];
    ghost var t := Tail(Parent(stack));
    var slash := StrLen(path, Render(stack));
    while path[slash] != '/'
      invariant |t| <= slash <= |Render(stack)|
      decreases slash
    {
      slash := slash - 1;
    }
    if slash == 0 {
      Put(path, 0, "/");
    } else {
      path[slash] := '\0';
    }
  }

  lemma RenderText(stack: seq<string>)
    requires Names(stack)
    ensures Text(Render(stack))
  {
    TailText(stack);
  }

  // The component at the cursor, and where the rest begins.
  lemma NextPart(s: string, stack: seq<string>)
    requires s != "" && Text(s)
    ensures var i := Slash(s); var rest := if i == |s| then "" else s[i + 1..];
            Plain(s[..i]) && Text(rest)
            && Walk(stack, Split(s)) == match Step(stack, s[..i]) case None => None case Some(next) => Walk(next, Split(rest))
  {
    var i := Slash(s);
    if i == |s| { assert s[..i] == s; }
  }

  // One component: skipped, popped or appended.
  method TakePart(resolved: array<char>, part: string, ghost stack: seq<string>) returns (ok: bool)
    requires resolved.Length == PATH_MAX && Reachable(stack) && Holds(resolved, Render(stack)) && Plain(part)
    modifies resolved
    ensures ok <==> Step(stack, part).Some?
    ensures ok ==> Reachable(Step(stack, part).value) && Holds(resolved, Render(Step(stack, part).value))
  {
    hide Names, Name, Plain, Text, Render, Holds;
    KeepsReachable(stack, part);
    ok := true;
    if part == "" || part == "." {
    } else if part == ".." {
      PopComponent(resolved, stack);
    } else {
      ok := AppendComponent(resolved, part, stack);
    }
  }

  // Where the walk starts.
  method StartPath(cwd: array<char>, s: string, resolved: array<char>, ghost at: seq<string>)
    returns (cursor: nat, ghost stack: seq<string>)
    requires cwd.Length == PATH_MAX == resolved.Length && cwd != resolved && Reachable(at) && Holds(cwd, Render(at))
    requires Text(s) && s != ""
    modifies resolved
    ensures cursor <= |s| && Text(s[cursor..]) && Reachable(stack) && Holds(resolved, Render(stack))
    ensures Normal(at, s) == match Walk(stack, Split(s[cursor..])) case Some(to) => Ok(to) case None => TooLong
  {
    hide Walk, Split, Render, Names;
    if s[0] == '/' {
      Root();
      Put(resolved, 0, "/");
      return 1, [];
    }
    Copy(cwd, resolved, Render(at));
    assert s[0..] == s;
    return 0, at;
  }

  // normalize_path: the buffer ends up holding the normal form.
  method NormalizePath(cwd: array<char>, dirname: Option<string>, resolved: array<char>, ghost at: seq<string>)
    returns (err: int, ghost stack: seq<string>)
    requires cwd.Length == PATH_MAX == resolved.Length && cwd != resolved && Reachable(at) && Holds(cwd, Render(at))
    requires dirname.Some? ==> Text(dirname.value)
    modifies resolved
    ensures err == if dirname.None? then EINVAL
                   else match Normal(at, dirname.value) case Ok(_) => 0 case Einval => EINVAL case TooLong => ENAMETOOLONG
    ensures err == 0 ==> Normal(at, dirname.value) == Ok(stack) && Reachable(stack) && Holds(resolved, Render(stack))
  {
    hide Walk, Split, Plain, Text, Render, Holds, Step, Reachable;
    stack := [];
    if dirname.None? || dirname.value == "" { return EINVAL, stack; }
    var s := dirname.value;
    var cursor;
    cursor, stack := StartPath(cwd, s, resolved, at);
    ghost var whole := Walk(stack, Split(s[cursor..]));
    while cursor < |s|
      invariant cursor <= |s| && Reachable(stack) && Holds(resolved, Render(stack)) && Text(s[cursor..])
      invariant whole == Walk(stack, Split(s[cursor..]))
    {
      var rest := s[cursor..];
      var len := Slash(rest);
      NextPart(rest, stack);
      assert len < |rest| ==> rest[len + 1..] == s[cursor + len + 1..];
      var ok := TakePart(resolved, rest[..len], stack);
      if !ok { return ENAMETOOLONG, stack; }
      stack := Step(stack, rest[..len]).value;
      if len == |rest| {
        cursor := |s|;
        assert s[cursor..] == "";
      } else {
        cursor := cursor + len + 1;
      }
    }
    assert s[cursor..] == "";
    Finished(stack);
    err := 0;
  }

  lemma KeepsReachable(stack: seq<string>, part: string)
    requires Reachable(stack) && Plain(part)
    ensures part != "" && part != "." && part != ".." ==> Name(part)
    ensures Step(stack, part).Some? ==> Reachable(Step(stack, part).value)
    ensures part == ".." ==> Step(stack, part) == Some(Parent(stack))
  {
    if stack != [] { RenderPrefix(stack); }
  }

  lemma Root()
    ensures Render([]) == "/" && Names([]) && Text("/")
  {
  }

  lemma Finished(stack: seq<string>)
    ensures Split("") == [] && Walk(stack, []) == Some(stack)
  {
  }

  method Copy(from: array<char>, to: array<char>, ghost s: string)
    requires from != to && from.Length == to.Length && Holds(from, s)
    modifies to
    ensures Holds(to, s)
  {
    var i := 0;
    while i < from.Length
      invariant 0 <= i <= from.Length && forall j :: 0 <= j < i ==> to[j] == from[j]
    {
      to[i] := from[i];
      i := i + 1;
    }
  }

  class Cwd {
    const cwd: array<char>
    ghost var stack: seq<string>      // its names

    // Absolute, shorter than PATH_MAX, and free of empty, "." and ".." components.
    ghost predicate Valid()
      reads this, cwd
    {
      cwd.Length == PATH_MAX && Reachable(stack) && Holds(cwd, Render(stack))
    }

    constructor ()
      ensures Valid() && stack == [] && fresh(cwd)
    {
      cwd := new char[PATH_MAX](i => if i == 0 then '/' else '\0');
      stack := [];
    }

    // kernel is the answer for opening the directory, 0 or an error.
    method Chdir(dirname: Option<string>, kernel: string -> int) returns (err: int)
      requires Valid() && (dirname.Some? ==> Text(dirname.value))
      modifies this`stack, cwd
      ensures Valid()
      ensures err == if dirname.None? then EINVAL
                     else match Normal(old(stack), dirname.value)
                          case Ok(to) => kernel(Render(to)) case Einval => EINVAL case TooLong => ENAMETOOLONG
      ensures if err == 0 then Normal(old(stack), dirname.value) == Ok(stack)
              else stack == old(stack) && cwd[..] == old(cwd[..])
    {
      hide Walk, Split, Names, Text, Render;
      var resolved := new char[PATH_MAX](_ => '\0');
      ghost var to;
      err, to := NormalizePath(cwd, dirname, resolved, stack);
      if err != 0 { return; }
      var path := Chars(resolved, Render(to));
      err := kernel(path);
      if err != 0 { return; }
      Copy(resolved, cwd, Render(to));
      stack := to;
    }

    // The buffer to fill is an array, or none.
    method GetCwd(buf: Option<array<char>>, size: nat) returns (err: int)
      requires Valid() && (buf.Some? ==> buf.value.Length == size && buf.value != cwd)
      modifies if buf.Some? then {buf.value} else {}
      ensures err == if buf.None? || size == 0 then EINVAL else if size <= |Render(stack)| then ERANGE else 0
      ensures err == 0 ==> Holds(buf.value, Render(stack))
      ensures Valid()
    {
      hide Names, Text, Render;
      if buf.None? || size == 0 { return EINVAL; }
      var n := StrLen(cwd, Render(stack));
      if size <= n { return ERANGE; }
      Put(buf.value, 0, cwd[..n]);
      err := 0;
    }

    // An absolute path stands as it is; a relative one is joined to the working directory, and
    // then names the same directory from anywhere.
    method ResolvePath(path: Option<string>, buf: array<char>) returns (err: int, full: string)
      requires Valid() && buf.Length == PATH_MAX && buf != cwd && (path.Some? ==> Text(path.value))
      modifies buf
      ensures Valid()
      ensures path.None? <==> err == EFAULT
      ensures path.Some? && (path.value == "" || path.value[0] == '/') ==> err == 0 && full == path.value
      ensures path.Some? && path.value != "" && path.value[0] != '/' ==>
                && (err == 0 || err == ENAMETOOLONG) && (err == 0 <==> |Join(stack, path.value)| < PATH_MAX)
                && (err == 0 ==> full == Join(stack, path.value) && Holds(buf, full)
                                 && forall other :: Normal(other, full) == Normal(stack, path.value))
    {
      hide Names, Text, Render, Normal;
      full := "";
      if path.None? { return EFAULT, full; }
      var p := path.value;
      if p == "" || p[0] == '/' { return 0, p; }
      var used := StrLen(cwd, Render(stack));
      var separator := if used > 1 then 1 else 0;
      if used + separator + |p| >= PATH_MAX { return ENAMETOOLONG, full; }
      var prefix := cwd[..used];
      assert prefix == Render(stack);
      full := prefix + (if separator == 1 then "/" else "") + p;
      Put(buf, 0, full);
      JoinText(stack, p);
      forall other
        ensures Normal(other, full) == Normal(stack, p)
      {
        JoinIsRelative(stack, other, p);
      }
      err := 0;
    }
  }

  lemma JoinText(stack: seq<string>, p: string)
    requires Names(stack) && Text(p)
    ensures Text(Join(stack, p))
  {
    RenderText(stack);
  }

  method Chars(a: array<char>, ghost s: string) returns (t: string)
    requires Holds(a, s)
    ensures t == s
  {
    var n := StrLen(a, s);
    t := a[..n];
  }
}
