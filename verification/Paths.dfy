/** Path strings: `path_parse` (fs/fs.c) and the normaliser (shell/path_parse.c). */
module Paths {
  import opened Common

  predicate NoSlash(n: string) { forall i :: 0 <= i < |n| ==> n[i] != '/' }

  /** A component. */
  predicate Name(n: string) { n != "" && NoSlash(n) }

  predicate Proper(n: string) { Name(n) && n != "." && n != ".." }

  predicate AllProper(st: seq<string>) { forall i :: 0 <= i < |st| ==> Proper(st[i]) }

  // ---------------------------------------------------------------- components

  function Word(s: string): (w: string)
    ensures NoSlash(w) && |w| <= |s| && s[..|w|] == w && (|w| < |s| ==> s[|w|] == '/')
  {
    if s == "" || s[0] == '/' then "" else [s[0]] + Word(s[1..])
  }

  /** The names between runs of slashes. */
  function Components(s: string): seq<string>
    decreases |s|
  {
    if s == "" then []
    else if s[0] == '/' then Components(s[1..])
    else [Word(s)] + Components(s[|Word(s)|..])
  }

  lemma {:induction false} ComponentsAreNames(s: string)
    ensures forall i :: 0 <= i < |Components(s)| ==> Name(Components(s)[i])
    decreases |s|
  {
    if s != "" {
      if s[0] == '/' { ComponentsAreNames(s[1..]); } else { ComponentsAreNames(s[|Word(s)|..]); }
    }
  }

  lemma {:induction false} WordOf(w: string, t: string)
    requires NoSlash(w) && (t == "" || t[0] == '/')
    ensures Word(w + t) == w
  {
    if w != "" {
      assert (w + t)[1..] == w[1..] + t;
      WordOf(w[1..], t);
    } else {
      assert w + t == t;
    }
  }

  /** A name without slashes is its own only component. */
  lemma OneComponent(a: string)
    requires NoSlash(a)
    ensures Components(a) == if a == "" then [] else [a]
  {
    WordOf(a, "");
    assert a + "" == a && a[|a|..] == "";
  }

  /** `path_parse`: the next name, empty at the end, and what follows it. */
  method PathParse(path: string) returns (name: string, rest: Option<string>)
    ensures Components(path) == (if name == "" then [] else [name] + Components(Tail(rest)))
    ensures NoSlash(name) && (name == "" ==> rest == None)
    ensures rest.Some? ==> 0 < |rest.value| < |path| && rest.value[0] == '/'
    ensures path != "" && path[0] == '/' ==> 1 + |name| + |Tail(rest)| <= |path|
  {
    hide Components, Word;
    var i := 0;
    if path != "" && path[0] == '/' {
      i := 1;
      SkipAt(path, 0);
      while i < |path| && path[i] == '/'
        invariant 1 <= i <= |path| && Components(path[i..]) == Components(path)
      {
        SkipAt(path, i);
        i := i + 1;
      }
    }
    var start := i;
    assert Components(path[start..]) == Components(path) by { assert path[0..] == path; }
    name := "";
    while i < |path| && path[i] != '/'
      invariant start <= i <= |path| && name == path[start..i] && NoSlash(name)
    {
      name := name + [path[i]];
      i := i + 1;
    }
    NameAt(path, start, i);
    if i == |path| {
      rest := None;
    } else {
      rest := Some(path[i..]);
    }
  }

  lemma SkipAt(path: string, i: nat)
    requires i < |path| && path[i] == '/'
    ensures Components(path[i..]) == Components(path[i + 1..]) && path[0..] == path
  {
    assert path[i..][1..] == path[i + 1..];
  }

  lemma NameAt(path: string, start: nat, i: nat)
    requires start <= i <= |path| && NoSlash(path[start..i]) && (i == |path| || path[i] == '/') &&
      (start == |path| || path[start] != '/')
    ensures Components(path[start..]) == (if start == i then [] else [path[start..i]] + Components(path[i..]))
    ensures start == i ==> i == |path|
    ensures path[|path|..] == ""
  {
    if start < i {
      assert path[start..] == path[start..i] + path[i..];
      FirstWord(path[start..i], path[i..]);
    }
  }

  function Tail(rest: Option<string>): string { if rest.None? then "" else rest.value }

  // ---------------------------------------------------------------- the meaning of a path

  /** One component acts on the stack of names: `..` pops and stays at the root, `.` does nothing. */
  function Apply(st: seq<string>, name: string): seq<string> {
    if name == ".." then if st == [] then [] else st[..|st| - 1]
    else if name == "." then st
    else st + [name]
  }

  function Fold(st: seq<string>, names: seq<string>): seq<string>
    decreases |names|
  {
    if names == [] then st else Fold(Apply(st, names[0]), names[1..])
  }

  function Join(st: seq<string>): string {
    if st == [] then "" else Join(st[..|st| - 1]) + "/" + st[|st| - 1]
  }

  function Render(st: seq<string>): string { if st == [] then "/" else Join(st) }

  lemma {:induction false} FoldProper(st: seq<string>, names: seq<string>)
    requires AllProper(st) && forall i :: 0 <= i < |names| ==> Name(names[i])
    ensures AllProper(Fold(st, names))
    decreases |names|
  {
    if names != [] { FoldProper(Apply(st, names[0]), names[1..]); }
  }

  /** Proper names leave nothing to do. */
  lemma {:induction false} FoldNothing(st: seq<string>, names: seq<string>)
    requires AllProper(names)
    ensures Fold(st, names) == st + names
    decreases |names|
  {
    if names != [] {
      FoldNothing(st + [names[0]], names[1..]);
      assert st + [names[0]] + names[1..] == st + names;
    } else {
      assert st + names == st;
    }
  }

  lemma FirstWord(w: string, t: string)
    requires Name(w) && (t == "" || t[0] == '/')
    ensures Components(w + t) == [w] + Components(t)
  {
    WordOf(w, t);
    assert (w + t)[|w|..] == t;
  }

  lemma SkipSlash(t: string)
    ensures Components("/" + t) == Components(t)
  {
    assert ("/" + t)[1..] == t;
  }

  lemma {:induction false} ComponentsAppend(a: string, b: string)
    requires b != "" && b[0] == '/'
    ensures Components(a + b) == Components(a) + Components(b)
    decreases |a|
  {
    hide Components;
    if a == "" {
      assert a + b == b;
      NoComponents();
    } else if a[0] == '/' {
      assert a == "/" + a[1..];
      assert a + b == "/" + (a[1..] + b);
      SkipSlash(a[1..]);
      SkipSlash(a[1..] + b);
      ComponentsAppend(a[1..], b);
    } else {
      var w := Word(a);
      var t := a[|w|..];
      assert a == w + t && a + b == w + (t + b);
      FirstWord(w, t);
      FirstWord(w, t + b);
      ComponentsAppend(t, b);
    }
  }

  /** A slash separates, wherever it is. */
  lemma ComponentsSplit(a: string, b: string)
    ensures Components(a + "/" + b) == Components(a) + Components(b)
  {
    hide Components;
    assert a + "/" + b == a + ("/" + b);
    ComponentsAppend(a, "/" + b);
    SkipSlash(b);
  }

  lemma NoComponents()
    ensures Components("") == []
  {
  }

  /** Rendering and splitting are inverse. */
  lemma {:induction false} SplitJoin(st: seq<string>)
    requires forall i :: 0 <= i < |st| ==> Name(st[i])
    ensures Components(Join(st)) == st
  {
    hide Components;
    NoComponents();
    if st != [] {
      var n := |st| - 1;
      SplitJoin(st[..n]);
      ComponentsAppend(Join(st[..n]), "/" + st[n]);
      assert Join(st) == Join(st[..n]) + ("/" + st[n]);
      SkipSlash(st[n]);
      FirstWord(st[n], "");
      assert st[n] + "" == st[n];
      assert st == st[..n] + [st[n]];
    }
  }

  lemma SplitRender(st: seq<string>)
    requires forall i :: 0 <= i < |st| ==> Name(st[i])
    ensures Components(Render(st)) == st
  {
    SplitJoin(st);
  }

  // ---------------------------------------------------------------- wash_path

  /** `strrchr(s, '/')` as an index, -1 for none. */
  function LastSlash(s: string): (r: int)
    ensures -1 <= r < |s| && (r >= 0 ==> s[r] == '/') && forall i :: r < i < |s| ==> s[i] != '/'
  {
    if s == "" then -1 else if s[|s| - 1] == '/' then |s| - 1 else LastSlash(s[..|s| - 1])
  }

  lemma LastIs(s: string, i: nat)
    requires i < |s| && s[i] == '/' && forall k :: i < k < |s| ==> s[k] != '/'
    ensures LastSlash(s) == i
  {
  }

  /** Cutting a rendered path at its last slash pops the stack. */
  lemma CutPops(st: seq<string>)
    requires AllProper(st) && st != []
    ensures var s := Render(st); LastSlash(s) == |Join(st[..|st| - 1])| && s[..LastSlash(s)] == Join(st[..|st| - 1])
    ensures LastSlash(Render(st)) == 0 <==> |st| == 1
  {
    var n := |st| - 1;
    var j := Join(st[..n]);
    assert Render(st) == j + "/" + st[n];
    LastIs(Render(st), |j|);
    if n > 0 { assert st[..n] != []; assert |j| > 0; }
  }

  /** `wash_path` computes the fold of the components. */
  method WashPath(path: string) returns (out: string)
    requires path != "" && path[0] == '/'
    ensures out == Render(Fold([], Components(path)))
  {
    hide Components, Fold, Join, Apply;
    var name, rest := PathParse(path);
    FoldNone([]);
    if name == "" {
      return "/";
    }
    ComponentsAreNames(path);
    ghost var st: seq<string> := [];
    ghost var todo := Components(path);
    out := "/";
    while name != ""
      invariant NoSlash(name) && AllProper(st) && out == Render(st)
      invariant todo == (if name == "" then [] else [name] + Components(Tail(rest)))
      invariant forall i :: 0 <= i < |todo| ==> Name(todo[i])
      invariant Fold(st, todo) == Fold([], Components(path))
      decreases if name == "" then 0 else 1 + |Tail(rest)|
    {
      ApplyRender(st, name);
      if name == ".." {
        var slash := LastSlash(out);
        if slash != 0 {
          out := out[..slash];
        } else {
          out := out[..slash + 1];
        }
      } else if name != "." {
        if out != "/" {
          out := out + "/";
        }
        out := out + name;
      }
      FoldOne(st, todo);
      st := Apply(st, name);
      todo := todo[1..];
      name := "";
      NoComponents();
      if rest.Some? {
        name, rest := PathParse(rest.value);
      }
    }
    FoldNone(st);
  }

  lemma FoldNone(st: seq<string>)
    ensures Fold(st, []) == st
  {
  }

  lemma FoldOne(st: seq<string>, names: seq<string>)
    requires names != []
    ensures Fold(st, names) == Fold(Apply(st, names[0]), names[1..])
  {
  }

  /** What one turn of the loop does to the rendered path. */
  lemma ApplyRender(st: seq<string>, name: string)
    requires AllProper(st) && Name(name)
    ensures AllProper(Apply(st, name))
    ensures var out := Render(st); var r := Render(Apply(st, name));
      if name == ".." then var i := LastSlash(out); i >= 0 && r == if i != 0 then out[..i] else out[..i + 1]
      else if name == "." then r == out
      else r == (if out != "/" then out + "/" else out) + name
  {
    if st != [] {
      CutPops(st);
      StartsWithSlash(st);
    }
    if name != ".." && name != "." {
      assert (st + [name])[..|st|] == st;
      assert Render(st + [name]) == Join(st) + "/" + name;
      if st == [] { assert Join(st) + "/" + name == "/" + name; }
    }
  }

  /** What the normaliser returns has no `.`, `..` or empty component, and normalising it again changes nothing. */
  lemma WashIdempotent(path: string)
    ensures var out := Render(Fold([], Components(path)));
      && out != "" && out[0] == '/' && AllProper(Components(out)) && Render(Components(out)) == out
      && Render(Fold([], Components(out))) == out
  {
    ComponentsAreNames(path);
    var st := Fold([], Components(path));
    FoldProper([], Components(path));
    SplitRender(st);
    FoldNothing([], st);
    assert [] + st == st;
    StartsWithSlash(st);
  }

  lemma {:induction false} StartsWithSlash(st: seq<string>)
    ensures Render(st) != "" && Render(st)[0] == '/'
  {
    if |st| > 1 { StartsWithSlash(st[..|st| - 1]); } else if |st| == 1 { assert Join(st) == Join([]) + "/" + st[0]; }
  }

  lemma {:induction false} FoldAppend(st: seq<string>, a: seq<string>, b: seq<string>)
    ensures Fold(st, a + b) == Fold(Fold(st, a), b)
    decreases |a|
  {
    if a == [] {
      assert a + b == b;
    } else {
      assert (a + b)[1..] == a[1..] + b;
      FoldAppend(Apply(st, a[0]), a[1..], b);
    }
  }

  /** `make_clear_abs_path`, `cwd` being what getcwd returned. */
  method MakeClearAbsPath(path: string, cwd: seq<string>) returns (out: string)
    requires AllProper(cwd)
    ensures out == Render(Fold(if path != "" && path[0] == '/' then [] else cwd, Components(path)))
  {
    var abs := "";
    if path == "" || path[0] != '/' {
      abs := Render(cwd);
      if abs != "/" {
        abs := abs + "/";
      }
      Relative(cwd, path);
    }
    assert "" + path == path;
    abs := abs + path;
    StartsWithSlash(cwd);
    out := WashPath(abs);
  }

  lemma Relative(cwd: seq<string>, path: string)
    requires AllProper(cwd)
    ensures var abs := if Render(cwd) != "/" then Render(cwd) + "/" else Render(cwd);
      Fold([], Components(abs + path)) == Fold(cwd, Components(path))
  {
    SplitJoin(cwd);
    ComponentsAppend(Join(cwd), "/" + path);
    assert ("/" + path)[1..] == path;
    FoldNothing([], cwd);
    FoldAppend([], cwd, Components(path));
    assert [] + cwd == cwd;
    if cwd != [] {
      CutPops(cwd);
      assert Render(cwd) + "/" + path == Join(cwd) + ("/" + path);
    } else {
      assert "" + ("/" + path) == "/" + path;
    }
  }
}
