/** The functions of Go's `path/filepath` package that Portoshim relies on (Unix). */
module GoPaths {
  import opened GoStrings

  /** A path component that names a file. */
  predicate IsName(part: string) {
    part != "" && part != "." && part != ".." && '/' !in part
  }

  predicate AllNames(parts: seq<string>) {
    forall i :: 0 <= i < |parts| ==> IsName(parts[i])
  }

  predicate IsAbs(path: string) {
    path != "" && path[0] == '/'
  }

  /** One component of the lexical processing that filepath.Clean describes. */
  function Push(rooted: bool, stack: seq<string>, part: string): seq<string> {
    if part == "" || part == "." then stack
    else if part == ".." then
      if stack != [] && stack[|stack| - 1] != ".." then stack[..|stack| - 1]
      else if rooted then stack
      else stack + [".."]
    else stack + [part]
  }

  function PushAll(rooted: bool, stack: seq<string>, parts: seq<string>): seq<string>
    decreases |parts|
  {
    if parts == [] then stack else PushAll(rooted, Push(rooted, stack, parts[0]), parts[1..])
  }

  /** The text of the absolute path with these components. */
  function Render(parts: seq<string>): string {
    "/" + Join(parts, '/')
  }

  function Clean(path: string): string {
    var stack := PushAll(IsAbs(path), [], Split(path, '/'));
    if IsAbs(path) then Render(stack) else if stack == [] then "." else Join(stack, '/')
  }

  /** The text up to and including the last slash. */
  function DirPart(path: string): (dir: string)
    ensures dir <= path
  {
    if path == "" || path[|path| - 1] == '/' then path else DirPart(path[..|path| - 1])
  }

  function Dir(path: string): string {
    Clean(DirPart(path))
  }

  function StripSlashes(path: string): string {
    if path != "" && path[|path| - 1] == '/' then StripSlashes(path[..|path| - 1]) else path
  }

  function Base(path: string): string {
    if path == "" then "."
    else
      var p := StripSlashes(path);
      if p == "" then "/" else p[|DirPart(p)|..]
  }

  /** filepath.Join of two elements. */
  function JoinPath(a: string, b: string): string {
    if a != "" then Clean(a + "/" + b) else if b != "" then Clean(b) else ""
  }

  // ---- laws

  lemma {:induction false} PushAllConcat(rooted: bool, stack: seq<string>, a: seq<string>, b: seq<string>)
    ensures PushAll(rooted, stack, a + b) == PushAll(rooted, PushAll(rooted, stack, a), b)
    decreases |a|
  {
    if a == [] {
      assert a + b == b;
    } else {
      assert (a + b)[1..] == a[1..] + b;
      PushAllConcat(rooted, Push(rooted, stack, a[0]), a[1..], b);
    }
  }

  lemma {:induction false} PushNames(rooted: bool, stack: seq<string>, names: seq<string>)
    requires AllNames(names)
    ensures PushAll(rooted, stack, names) == stack + names
    decreases |names|
  {
    if names == [] {
      assert stack + names == stack;
    } else {
      PushNames(rooted, stack + [names[0]], names[1..]);
      assert stack + names == stack + [names[0]] + names[1..];
    }
  }

  lemma {:induction false} PushRooted(stack: seq<string>, parts: seq<string>)
    requires AllNames(stack)
    requires forall i :: 0 <= i < |parts| ==> '/' !in parts[i]
    ensures AllNames(PushAll(true, stack, parts))
    decreases |parts|
  {
    if parts != [] {
      PushRooted(Push(true, stack, parts[0]), parts[1..]);
    }
  }

  lemma SplitRender(names: seq<string>)
    requires AllNames(names)
    ensures Split(Render(names), '/') == if names == [] then ["", ""] else [""] + names
  {
    var t := Join(names, '/');
    assert Render(names)[1..] == t;
    SplitTail(Render(names), '/');
    if names != [] { SplitJoin(names, '/'); }
  }

  lemma PushEmpty(rooted: bool, stack: seq<string>, parts: seq<string>)
    ensures PushAll(rooted, stack, [""] + parts) == PushAll(rooted, stack, parts)
  {
    assert ([""] + parts)[1..] == parts;
  }

  lemma CleanRender(names: seq<string>)
    requires AllNames(names)
    ensures Clean(Render(names)) == Render(names)
  {
    SplitRender(names);
    if names == [] {
      PushEmpty(true, [], [""]);
    } else {
      PushEmpty(true, [], names);
      PushNames(true, [], names);
      assert [] + names == names;
    }
  }

  lemma JoinSnoc(parts: seq<string>, part: string, sep: char)
    requires parts != []
    ensures Join(parts + [part], sep) == Join(parts, sep) + [sep] + part
  {
    if |parts| == 1 {
      assert (parts + [part])[1..] == [part];
    } else {
      assert (parts + [part])[1..] == parts[1..] + [part];
      JoinSnoc(parts[1..], part, sep);
    }
  }

  lemma {:induction false} DirPartConcat(a: string, name: string)
    requires '/' !in name
    ensures DirPart(a + "/" + name) == a + "/"
    decreases |name|
  {
    var s := a + "/" + name;
    if name == "" {
      assert s == a + "/";
    } else {
      var n := |name| - 1;
      assert s[..|s| - 1] == a + "/" + name[..n];
      assert s[|s| - 1] == name[n] && name[n] in name;
      DirPartConcat(a, name[..n]);
    }
  }

  /** Cleaning the text of a canonical path followed by more components. */
  lemma CleanUnder(names: seq<string>, rest: string)
    requires AllNames(names)
    ensures Clean(Render(names) + "/" + rest) == Render(PushAll(true, names, Split(rest, '/')))
  {
    var s := Render(names) + "/" + rest;
    assert IsAbs(s);
    SplitConcat(Render(names), '/', rest);
    PushAllConcat(true, [], Split(Render(names), '/'), Split(rest, '/'));
    SplitRender(names);
    if names == [] {
      PushEmpty(true, [], [""]);
    } else {
      PushEmpty(true, [], names);
      PushNames(true, [], names);
      assert [] + names == names;
    }
  }

  /** The parent of a canonical path drops its last component; the root is its own parent. */
  lemma DirRender(names: seq<string>)
    requires AllNames(names)
    ensures Dir(Render(names)) == Render(if names == [] then [] else names[..|names| - 1])
  {
    if names == [] {
      assert DirPart("/") == "/" && Render([]) == "/";
      CleanRender([]);
    } else {
      var n := |names| - 1;
      var up := names[..n];
      assert names == up + [names[n]];
      if up == [] {
        assert Join(names, '/') == names[n];
        assert Render(names) == "" + "/" + names[n];
        DirPartConcat("", names[n]);
        assert "" + "/" == "/" == Render([]);
        CleanRender([]);
      } else {
        JoinSnoc(up, names[n], '/');
        assert Render(names) == Render(up) + "/" + names[n];
        DirPartConcat(Render(up), names[n]);
        assert Render(up) + "/" == Render(up) + "/" + "";
        CleanUnder(up, "");
      }
    }
  }

  lemma JoinRender(names: seq<string>, name: string)
    requires AllNames(names) && IsName(name)
    ensures JoinPath(Render(names), name) == Render(names + [name])
  {
    CleanUnder(names, name);
    SplitOne(name, '/');
  }

  /** Cleaning twice is cleaning once. */
  lemma CleanIdempotent(path: string)
    ensures Clean(Clean(path)) == Clean(path)
  {
    JoinSplit(path, '/');
    var parts := Split(path, '/');
    var stack := PushAll(IsAbs(path), [], parts);
    if IsAbs(path) {
      PushRooted([], parts);
      CleanRender(stack);
    } else if stack == [] {
      assert Split(".", '/') == ["."] by { SplitOne(".", '/'); }
    } else {
      PushRelative([], parts);
      assert RelativeStack(stack);
      SplitJoin(stack, '/');
      FirstOf(stack);
      PushRelativeStack([], stack);
      assert [] + stack == stack;
    }
  }

  /** What a relative path cleans to: `..` components, then names. */
  predicate RelativeStack(stack: seq<string>) {
    && (forall i :: 0 <= i < |stack| ==> stack[i] == ".." || IsName(stack[i]))
    && (forall i, j :: 0 <= i < j < |stack| && stack[j] == ".." ==> stack[i] == "..")
  }

  lemma {:induction false} PushRelative(stack: seq<string>, parts: seq<string>)
    requires RelativeStack(stack)
    requires forall i :: 0 <= i < |parts| ==> '/' !in parts[i]
    ensures RelativeStack(PushAll(false, stack, parts))
    decreases |parts|
  {
    if parts != [] {
      var next := Push(false, stack, parts[0]);
      assert RelativeStack(next);
      PushRelative(next, parts[1..]);
    }
  }

  lemma {:induction false} PushRelativeStack(stack: seq<string>, rest: seq<string>)
    requires RelativeStack(stack + rest)
    ensures PushAll(false, stack, rest) == stack + rest
    decreases |rest|
  {
    if rest == [] {
      assert stack + rest == stack;
    } else {
      var whole := stack + rest;
      assert whole[|stack|] == rest[0];
      assert stack != [] && rest[0] == ".." ==> whole[|stack| - 1] == "..";
      assert whole == stack + [rest[0]] + rest[1..];
      PushRelativeStack(stack + [rest[0]], rest[1..]);
    }
  }

  lemma FirstOf(stack: seq<string>)
    requires stack != [] && RelativeStack(stack)
    ensures Join(stack, '/') != "" && !IsAbs(Join(stack, '/'))
  {
    assert stack[0] != "" && stack[0][0] in stack[0];
  }

  lemma BaseOfName(prefix: string, name: string)
    requires name != "" && '/' !in name && (prefix == "" || prefix[|prefix| - 1] == '/')
    ensures Base(prefix + name) == name
  {
    var s := prefix + name;
    assert s[|s| - 1] == name[|name| - 1] && name[|name| - 1] in name;
    assert StripSlashes(s) == s;
    if prefix == "" {
      assert s == name;
      NoDirPart(name);
    } else {
      var p := prefix[..|prefix| - 1];
      assert prefix == p + "/" && s == p + "/" + name;
      DirPartConcat(p, name);
      assert s[|prefix|..] == name;
    }
  }

  lemma {:induction false} NoDirPart(name: string)
    requires '/' !in name
    ensures DirPart(name) == ""
  {
    if name != "" {
      assert name[|name| - 1] in name;
      NoDirPart(name[..|name| - 1]);
    }
  }

  // ---- relative paths, seen from the root

  /** At the root, leading `..` components go nowhere. */
  function Strip(stack: seq<string>): seq<string> {
    if stack != [] && stack[0] == ".." then Strip(stack[1..]) else stack
  }

  lemma {:induction false} StripSnoc(stack: seq<string>, x: string)
    ensures Strip(stack + [x]) == if Strip(stack) == [] && x == ".." then [] else Strip(stack) + [x]
  {
    if stack == [] {
      assert stack + [x] == [x];
    } else if stack[0] == ".." {
      assert (stack + [x])[1..] == stack[1..] + [x];
      StripSnoc(stack[1..], x);
    }
  }

  lemma {:induction false} StripNames(stack: seq<string>)
    requires RelativeStack(stack)
    ensures AllNames(Strip(stack)) && (stack != [] && stack[|stack| - 1] == ".." ==> Strip(stack) == [])
  {
    if stack != [] && stack[0] == ".." { StripNames(stack[1..]); }
  }

  lemma PushedStack(stack: seq<string>, part: string)
    requires RelativeStack(stack) && '/' !in part
    ensures RelativeStack(Push(false, stack, part))
  {
  }

  lemma NamesAreNoUp(stack: seq<string>)
    requires RelativeStack(stack)
    ensures Strip(stack) != [] ==> Strip(stack)[|Strip(stack)| - 1] != ".."
    ensures Strip([]) == []
  {
    hide RelativeStack;
    StripNames(stack);
  }

  lemma PushStrip(stack: seq<string>, part: string)
    requires RelativeStack(stack) && '/' !in part
    ensures Push(true, Strip(stack), part) == Strip(Push(false, stack, part)) && RelativeStack(Push(false, stack, part))
  {
    hide RelativeStack, AllNames, Strip;
    PushedStack(stack, part);
    NamesAreNoUp(stack);
    StripNames(stack);
    StripSnoc(stack, part);
    if part == ".." && stack != [] && stack[|stack| - 1] != ".." {
      var n := |stack| - 1;
      assert stack == stack[..n] + [stack[n]];
      StripSnoc(stack[..n], stack[n]);
    }
  }

  lemma {:induction false} PushAllStrip(stack: seq<string>, parts: seq<string>)
    requires RelativeStack(stack) && forall i :: 0 <= i < |parts| ==> '/' !in parts[i]
    ensures PushAll(true, Strip(stack), parts) == Strip(PushAll(false, stack, parts)) && RelativeStack(PushAll(false, stack, parts))
    decreases |parts|
  {
    if parts != [] {
      PushStrip(stack, parts[0]);
      PushAllStrip(Push(false, stack, parts[0]), parts[1..]);
    }
  }

  /** What a relative path cleans to, alone and below the root. */
  lemma CleanRooted(path: string) returns (stack: seq<string>)
    requires !IsAbs(path)
    ensures RelativeStack(stack) && Clean(path) == (if stack == [] then "." else Join(stack, '/'))
    ensures Clean("/" + path) == Render(Strip(stack))
  {
    JoinSplit(path, '/');
    stack := PushAll(false, [], Split(path, '/'));
    PushAllStrip([], Split(path, '/'));
    assert ("/" + path)[1..] == path;
    SplitTail("/" + path, '/');
    PushEmpty(true, [], Split(path, '/'));
  }

  /** The root in front of an absolute path changes nothing. */
  lemma CleanAbsolute(path: string)
    requires IsAbs(path)
    ensures Clean("/" + path) == Clean(path)
  {
    assert ("/" + path)[1..] == path;
    SplitTail("/" + path, '/');
    PushEmpty(true, [], Split(path, '/'));
  }

  /** The directory and the last component of a cleaned relative path. */
  lemma RelativeParts(front: seq<string>, last: string)
    requires RelativeStack(front + [last])
    ensures Dir(Join(front + [last], '/')) == (if front == [] then "." else Join(front, '/'))
    ensures Base(Join(front + [last], '/')) == last
  {
    hide Clean, Base;
    var s := Join(front + [last], '/');
    assert (front + [last])[|front|] == last;
    if front == [] {
      assert front + [last] == [last];
      NoDirPart(last);
      BaseOfName("", last);
      assert "" + last == last;
      CleanEmpty();
    } else {
      assert forall i :: 0 <= i < |front| ==> (front + [last])[i] == front[i];
      JoinSnoc(front, last, '/');
      DirPartConcat(Join(front, '/'), last);
      BaseOfName(Join(front, '/') + "/", last);
      CleanSlash(front);
    }
  }

  lemma CleanEmpty()
    ensures Clean("") == "."
  {
  }

  lemma CleanSlash(stack: seq<string>)
    requires RelativeStack(stack) && stack != []
    ensures Clean(Join(stack, '/') + "/") == Join(stack, '/')
  {
    FirstOf(stack);
    var s := Join(stack, '/') + "/";
    assert s == Join(stack, '/') + "/" + "";
    SplitConcat(Join(stack, '/'), '/', "");
    SplitJoin(stack, '/');
    PushAllConcat(false, [], stack, [""]);
    PushRelativeStack([], stack);
    assert [] + stack == stack;
  }
}
