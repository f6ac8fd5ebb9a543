/** The directory tree (fs/fs.c): looking up a path, making and removing directories, and the way back from a
    directory to its path. */
module DirTree {
  import opened Common
  import opened Paths

  datatype Entry = Entry(name: string, ino: nat, kind: Kind)

  /** The used entries of every directory in the order a scan meets them; inode 0 is the root directory. */
  type Dirs = map<nat, seq<Entry>>

  function Find(es: seq<Entry>, name: string): (r: int)
    ensures -1 <= r < |es| && (r >= 0 ==> es[r].name == name && forall i :: 0 <= i < r ==> es[i].name != name)
    ensures r == -1 ==> forall i :: 0 <= i < |es| ==> es[i].name != name
  {
    if es == [] then -1 else if es[0].name == name then 0
    else var r := Find(es[1..], name); if r == -1 then -1 else r + 1
  }

  function FindIno(es: seq<Entry>, ino: nat): (r: int)
    ensures -1 <= r < |es| && (r >= 0 ==> es[r].ino == ino && forall i :: 0 <= i < r ==> es[i].ino != ino)
    ensures r == -1 ==> forall i :: 0 <= i < |es| ==> es[i].ino != ino
  {
    if es == [] then -1 else if es[0].ino == ino then 0
    else var r := FindIno(es[1..], ino); if r == -1 then -1 else r + 1
  }

  // ---------------------------------------------------------------- shape

  /** `.` and `..` come first. */
  predicate Dots(t: Dirs, d: nat) {
    && d in t && |t[d]| >= 2 && t[d][0] == Entry(".", d, Directory)
    && t[d][1].name == ".." && t[d][1].kind == Directory && t[d][1].ino in t
  }

  function Parent(t: Dirs, d: nat): nat
    requires Dots(t, d)
  {
    t[d][1].ino
  }

  /** An entry other than the dots: a proper name; a subdirectory's `..` leads back. */
  ghost predicate EntryOk(t: Dirs, d: nat, e: Entry) {
    Proper(e.name) && e.ino != 0 && if e.kind == Directory then Dots(t, e.ino) && Parent(t, e.ino) == d else e.ino !in t
  }

  /** Apart from the dots, names and inodes occur once. */
  predicate Different(es: seq<Entry>) {
    forall i, j | 2 <= i < j < |es| :: es[i].name != es[j].name && es[i].ino != es[j].ino
  }

  ghost predicate EntriesOk(t: Dirs, d: nat)
    requires d in t
  {
    Different(t[d]) && forall i | 2 <= i < |t[d]| :: EntryOk(t, d, t[d][i])
  }

  /** Index of the entry for `d` in its parent. */
  ghost predicate NamedAt(t: Dirs, d: nat, i: int)
    requires Dots(t, d)
  {
    var p := Parent(t, d);
    2 <= i < |t[p]| && t[p][i].ino == d && t[p][i].kind == Directory
  }

  /** A tree: every directory but the root is named in the directory its `..` names, one level up. */
  ghost predicate Shape(t: Dirs, depth: map<nat, nat>) {
    && depth.Keys == t.Keys && 0 in t && (forall d | d in t :: Dots(t, d)) && Parent(t, 0) == 0 && depth[0] == 0
    && (forall d | d in t :: EntriesOk(t, d))
    && (forall d | d in t && d != 0 :: depth[d] == depth[Parent(t, d)] + 1 && exists i :: NamedAt(t, d, i))
  }

  /** The name of `d` in its parent. */
  ghost function NameOf(t: Dirs, depth: map<nat, nat>, d: nat): (n: string)
    requires Shape(t, depth) && d in t && d != 0
    ensures Proper(n)
  {
    Named(t, depth, d);
    var p := Parent(t, d);
    t[p][FindIno(t[p], d)].name
  }

  /** A directory other than the root has its entry where `get_child_dir_name` looks. */
  lemma Named(t: Dirs, depth: map<nat, nat>, d: nat)
    requires Shape(t, depth) && d in t && d != 0
    ensures var p := Parent(t, d); var i := FindIno(t[p], d);
      p in t && 2 <= i < |t[p]| && t[p][i].kind == Directory && Proper(t[p][i].name) && depth[d] == depth[p] + 1
  {
    hide EntriesOk;
    var p := Parent(t, d);
    var i :| NamedAt(t, d, i);
    OneEntry(t, depth, p, i);
    ProperEntry(t, depth, p, i);
  }

  /** The names from the root down to `d`. */
  ghost function PathOf(t: Dirs, depth: map<nat, nat>, d: nat): (st: seq<string>)
    requires Shape(t, depth) && d in t
    ensures AllProper(st) && |st| == depth[d]
    decreases depth[d]
  {
    if d == 0 then [] else Named(t, depth, d); PathOf(t, depth, Parent(t, d)) + [NameOf(t, depth, d)]
  }

  // ---------------------------------------------------------------- looking up

  /** What `search_file` finds: a directory and the one it was entered from, a file, or nothing for the first of the
      last `left` names. `Unset` is an inode number nobody has written, `Failed` the ASSERT on the path. */
  datatype Found =
    | Dir(ino: nat, via: nat)
    | File(ino: nat, via: nat)
    | Missing(via: nat, left: nat)
    | Lost
    | Unset
    | Failed

  const MAX_PATH_LEN := 512

  /** The paths `search_file` takes: absolute and not too long. */
  predicate Accepted(path: string) { path != "" && path[0] == '/' && |path| < MAX_PATH_LEN }

  /** Several slashes and nothing else: the search loop is not entered. */
  predicate Slashes(path: string) { Accepted(path) && path != "/" && Components(path) == [] }

  function Walk(t: Dirs, d: nat, via: nat, names: seq<string>): Found
    decreases |names|
  {
    if names == [] then Dir(d, via)
    else if d !in t then Lost
    else
      var i := Find(t[d], names[0]);
      if i == -1 then Missing(d, |names|)
      else if t[d][i].kind == Directory then Walk(t, t[d][i].ino, d, names[1..])
      else File(t[d][i].ino, d)
  }

  /** An entry other than the dots is the only one of its name and the only one of its inode. */
  lemma OneEntry(t: Dirs, depth: map<nat, nat>, d: nat, i: int)
    requires Shape(t, depth) && d in t && 2 <= i < |t[d]|
    ensures Find(t[d], t[d][i].name) == i
    ensures t[d][i].kind == Directory ==> FindIno(t[d], t[d][i].ino) == i
  {
    hide Shape, EntriesOk, NamedAt, Different;
    IsDir(t, depth, d);
    ProperEntry(t, depth, d, i);
    FoundAt(t[d], i);
    if t[d][i].kind == Directory { NotDots(t, depth, d, i); }
  }

  lemma FoundAt(es: seq<Entry>, i: int)
    requires Different(es) && 2 <= i < |es| && es[0].name == "." && es[1].name == ".." && Proper(es[i].name)
    ensures Find(es, es[i].name) == i
    ensures es[i].ino != es[0].ino && es[i].ino != es[1].ino ==> FindIno(es, es[i].ino) == i
  {
  }

  /** A subdirectory is neither the directory nor its parent. */
  lemma NotDots(t: Dirs, depth: map<nat, nat>, d: nat, i: int)
    requires Shape(t, depth) && d in t && 2 <= i < |t[d]| && t[d][i].kind == Directory
    ensures t[d][i].ino != d && t[d][i].ino != t[d][1].ino && t[d][i].ino in t && Dots(t, t[d][i].ino) &&
      Parent(t, t[d][i].ino) == d && t[d][i].ino != 0
  {
    hide NamedAt;
    assert Dots(t, d) && EntriesOk(t, d);
    var c := t[d][i].ino;
    assert depth[c] == depth[Parent(t, c)] + 1;
    assert d != 0 ==> depth[d] == depth[Parent(t, d)] + 1;
  }

  lemma DotsFound(t: Dirs, d: nat)
    requires Dots(t, d)
    ensures Find(t[d], ".") == 0 && Find(t[d], "..") == 1
  {
    assert t[d][0].name == "." && t[d][1].name == "..";
  }

  lemma NameIs(t: Dirs, depth: map<nat, nat>, d: nat, i: int)
    requires Shape(t, depth) && d in t && 2 <= i < |t[d]| && t[d][i].kind == Directory
    ensures var c := t[d][i].ino;
      c in t && c != 0 && Dots(t, c) && Parent(t, c) == d && NameOf(t, depth, c) == t[d][i].name
  {
    hide Shape, EntriesOk, NamedAt;
    NotDots(t, depth, d, i);
    OneEntry(t, depth, d, i);
  }

  /** Following a path through `.`, `..` and names ends in the directory whose names are the fold of the components. */
  lemma {:induction false} WalkFolds(t: Dirs, depth: map<nat, nat>, d: nat, via: nat, names: seq<string>)
    requires Shape(t, depth) && d in t && forall i :: 0 <= i < |names| ==> Name(names[i])
    ensures var r := Walk(t, d, via, names);
      !r.Lost? && (r.Dir? ==> r.ino in t && PathOf(t, depth, r.ino) == Fold(PathOf(t, depth, d), names))
    decreases |names|
  {
    hide Shape, EntriesOk, NamedAt, PathOf, NameOf, Apply;
    if names != [] {
      IsDir(t, depth, d);
      var n := names[0];
      var i := Find(t[d], n);
      DotsFound(t, d);
      if i != -1 && t[d][i].kind == Directory {
        var c := t[d][i].ino;
        if i >= 2 { NameIs(t, depth, d, i); ProperEntry(t, depth, d, i); }
        StepPath(t, depth, d, i);
        WalkFolds(t, depth, c, d, names[1..]);
      }
    }
  }

  lemma IsDir(t: Dirs, depth: map<nat, nat>, d: nat)
    requires Shape(t, depth) && d in t
    ensures Dots(t, d) && |t[d]| >= 2 && Parent(t, d) in t && Parent(t, d) == t[d][1].ino && 0 in t && Dots(t, 0) &&
      Parent(t, 0) == 0 && d in depth
  {
  }

  lemma ProperEntry(t: Dirs, depth: map<nat, nat>, d: nat, i: int)
    requires Shape(t, depth) && d in t && 2 <= i < |t[d]|
    ensures Proper(t[d][i].name) && Different(t[d])
  {
    hide Proper, NamedAt;
    assert EntriesOk(t, d);
  }

  lemma StepPath(t: Dirs, depth: map<nat, nat>, d: nat, i: int)
    requires Shape(t, depth) && d in t && 0 <= i < |t[d]| && t[d][i].kind == Directory
    ensures var c := t[d][i].ino; c in t && PathOf(t, depth, c) == Apply(PathOf(t, depth, d), t[d][i].name)
  {
    hide Shape, EntriesOk, NamedAt, NameOf;
    IsDir(t, depth, d);
    if i >= 2 {
      NameIs(t, depth, d, i);
      ProperEntry(t, depth, d, i);
    } else if d == 0 {
      assert t[d][i].ino == 0;
    }
  }

  /** Every directory is reached by its own names. */
  lemma {:induction false} WalkPath(t: Dirs, depth: map<nat, nat>, d: nat, via: nat)
    requires Shape(t, depth) && d in t && d != 0
    ensures Walk(t, 0, via, PathOf(t, depth, d)) == Dir(d, Parent(t, d))
    decreases depth[d]
  {
    hide Shape, EntriesOk, NamedAt, NameOf, Walk;
    IsDir(t, depth, d);
    Named(t, depth, d);
    var p := Parent(t, d);
    var n := NameOf(t, depth, d);
    var i := FindIno(t[p], d);
    OneEntry(t, depth, p, i);
    NameIs(t, depth, p, i);
    if p == 0 {
      assert PathOf(t, depth, d) == [n];
      WalkOne(t, p, via, n);
    } else {
      WalkPath(t, depth, p, via);
      WalkAppend(t, 0, via, PathOf(t, depth, p), n);
      IsDir(t, depth, p);
      WalkOne(t, p, Parent(t, p), n);
    }
  }

  lemma WalkOne(t: Dirs, d: nat, via: nat, n: string)
    requires d in t && Find(t[d], n) >= 0 && t[d][Find(t[d], n)].kind == Directory
    ensures Walk(t, d, via, [n]) == Dir(t[d][Find(t[d], n)].ino, d)
  {
    assert [n][1..] == [];
  }

  lemma {:induction false} WalkAppend(t: Dirs, d: nat, via: nat, names: seq<string>, n: string)
    requires Walk(t, d, via, names).Dir?
    ensures var r := Walk(t, d, via, names); Walk(t, d, via, names + [n]) == Walk(t, r.ino, r.via, [n])
    decreases |names|
  {
    if names == [] {
      assert names + [n] == [n];
    } else {
      assert (names + [n])[1..] == names[1..] + [n];
      WalkAppend(t, t[d][Find(t[d], names[0])].ino, d, names[1..], n);
    }
  }

  // ---------------------------------------------------------------- making and removing directories

  function Inserted(es: seq<Entry>, at: nat, e: Entry): (r: seq<Entry>)
    requires at <= |es|
    ensures |r| == |es| + 1 && forall i ::
      0 <= i < |r| ==> r[i] == if i < at then es[i] else if i == at then e else es[i - 1]
  {
    es[..at] + [e] + es[at..]
  }

  function Without(es: seq<Entry>, at: nat): (r: seq<Entry>)
    requires at < |es|
    ensures |r| == |es| - 1 && forall i :: 0 <= i < |r| ==> r[i] == if i < at then es[i] else es[i + 1]
  {
    es[..at] + es[at + 1..]
  }

  ghost predicate UnusedIno(t: Dirs, ino: nat) {
    ino != 0 && ino !in t && forall d, i | d in t && 0 <= i < |t[d]| :: t[d][i].ino != ino
  }

  /** A new directory `ino` named `name` in `p`; its entry goes into the first free slot, wherever that is. */
  function Mkdir(t: Dirs, p: nat, name: string, ino: nat, at: nat): Dirs
    requires p in t && at <= |t[p]|
  {
    var dots := [Entry(".", ino, Directory), Entry("..", p, Directory)];
    t[p := Inserted(t[p], at, Entry(name, ino, Directory))][ino := dots]
  }

  lemma DifferentInserted(es: seq<Entry>, at: nat, e: Entry)
    requires Different(es) && 2 <= at <= |es| && forall i | 2 <= i < |es| :: es[i].name != e.name && es[i].ino != e.ino
    ensures Different(Inserted(es, at, e))
  {
  }

  lemma DifferentWithout(es: seq<Entry>, at: nat)
    requires Different(es) && 2 <= at < |es|
    ensures Different(Without(es, at))
  {
  }

  /** `.` and `..` of every old directory stay. */
  ghost predicate SameDots(t: Dirs, n: Dirs, gone: set<nat>) {
    forall x | x in t && x !in gone && Dots(t, x) :: Dots(n, x) && Parent(n, x) == Parent(t, x)
  }

  lemma MkdirDots(t: Dirs, depth: map<nat, nat>, p: nat, name: string, ino: nat, at: nat)
    requires Shape(t, depth) && p in t && 2 <= at <= |t[p]| && UnusedIno(t, ino)
    ensures var n := Mkdir(t, p, name, ino, at); SameDots(t, n, {}) && Dots(n, ino) && Parent(n, ino) == p
  {
    hide EntriesOk, NamedAt, Dots, Shape;
    var n := Mkdir(t, p, name, ino, at);
    IsDir(t, depth, p);
    forall x | x in t ensures Dots(t, x) && Dots(n, x) && Parent(n, x) == Parent(t, x) {
      IsDir(t, depth, x);
      DotsKept(t, n, x);
    }
    DotsNew(n, p, ino);
  }

  lemma DotsKept(t: Dirs, n: Dirs, x: nat)
    requires Dots(t, x) && x in n && |n[x]| >= 2 && n[x][0] == t[x][0] && n[x][1] == t[x][1] && t[x][1].ino in n
    ensures Dots(n, x) && Parent(n, x) == Parent(t, x)
  {
  }

  lemma DotsNew(n: Dirs, p: nat, ino: nat)
    requires ino in n && p in n && n[ino] == [Entry(".", ino, Directory), Entry("..", p, Directory)]
    ensures Dots(n, ino) && Parent(n, ino) == p
  {
  }

  lemma EntryKept(t: Dirs, n: Dirs, gone: set<nat>, d: nat, e: Entry)
    requires EntryOk(t, d, e) && SameDots(t, n, gone) && e.ino !in gone && (e.ino in n ==> e.ino in t)
    ensures EntryOk(n, d, e)
  {
  }

  lemma MkdirEntries(t: Dirs, depth: map<nat, nat>, p: nat, name: string, ino: nat, at: nat, d: nat)
    requires Shape(t, depth) && p in t && 2 <= at <= |t[p]| && UnusedIno(t, ino) && Proper(name) &&
      Find(t[p], name) == -1
    requires d in t || d == ino
    ensures var n := Mkdir(t, p, name, ino, at); d in n && EntriesOk(n, d)
  {
    hide Proper, NamedAt, EntryOk, Different, Dots;
    var n := Mkdir(t, p, name, ino, at);
    MkdirDots(t, depth, p, name, ino, at);
    if d != ino {
      assert EntriesOk(t, d);
      forall i | 2 <= i < |t[d]| ensures EntryOk(n, d, t[d][i]) { EntryKept(t, n, {}, d, t[d][i]); }
      if d == p {
        DifferentInserted(t[p], at, Entry(name, ino, Directory));
        NewEntry(n, p, name, ino);
      }
    } else {
      NoMore(n[ino]);
    }
  }

  lemma NewEntry(n: Dirs, p: nat, name: string, ino: nat)
    requires Proper(name) && ino != 0 && Dots(n, ino) && Parent(n, ino) == p
    ensures EntryOk(n, p, Entry(name, ino, Directory))
  {
  }

  lemma NoMore(es: seq<Entry>)
    requires |es| <= 2
    ensures Different(es)
  {
  }

  /** `sys_mkdir` keeps the tree. */
  lemma MkdirKeeps(t: Dirs, depth: map<nat, nat>, p: nat, name: string, ino: nat, at: nat)
    requires Shape(t, depth) && p in t && 2 <= at <= |t[p]| && UnusedIno(t, ino) && Proper(name) &&
      Find(t[p], name) == -1
    ensures Shape(Mkdir(t, p, name, ino, at), depth[ino := depth[p] + 1])
  {
    hide EntriesOk, Proper, NamedAt, Dots, Mkdir, SameDots;
    var n := Mkdir(t, p, name, ino, at);
    var depth2 := depth[ino := depth[p] + 1];
    MkdirDots(t, depth, p, name, ino, at);
    MkdirHas(t, p, name, ino, at);
    assert depth2.Keys == n.Keys;
    forall d | d in n ensures Dots(n, d) && Parent(n, d) in n && (d != 0 ==> depth2[d] == depth2[Parent(n, d)] + 1) {
      if d != ino {
        IsDir(t, depth, d);
        KeptDots(t, n, d);
      }
    }
    IsDir(t, depth, 0);
    KeptDots(t, n, 0);
    forall d | d in n ensures EntriesOk(n, d) { MkdirEntries(t, depth, p, name, ino, at, d); }
    forall d | d in n && d != 0 ensures exists i :: NamedAt(n, d, i) {
      MkdirNamed(t, depth, p, name, ino, at, d);
    }
  }

  lemma KeptDots(t: Dirs, n: Dirs, d: nat)
    requires SameDots(t, n, {}) && Dots(t, d)
    ensures Dots(n, d) && Parent(n, d) == Parent(t, d)
  {
  }

  lemma MkdirNamed(t: Dirs, depth: map<nat, nat>, p: nat, name: string, ino: nat, at: nat, d: nat)
    requires Shape(t, depth) && p in t && 2 <= at <= |t[p]| && UnusedIno(t, ino) && d != 0 && (d in t || d == ino)
    ensures var n := Mkdir(t, p, name, ino, at); Dots(n, d) && exists i :: NamedAt(n, d, i)
  {
    hide EntriesOk, Proper, Dots, Shape;
    var n := Mkdir(t, p, name, ino, at);
    MkdirDots(t, depth, p, name, ino, at);
    if d == ino {
      assert NamedAt(n, d, at);
    } else {
      IsDir(t, depth, d);
      Named(t, depth, d);
      var i := FindIno(t[Parent(t, d)], d);
      assert NamedAt(n, d, if Parent(t, d) == p && i >= at then i + 1 else i);
    }
  }

  /** `dir_remove`: the entry is looked for in the directory the path came through, the inode is released anyway. */
  function Rmdir(t: Dirs, via: nat, d: nat): Dirs
    requires via in t
  {
    var i := FindIno(t[via], d);
    (if i >= 2 then t[via := Without(t[via], i)] else t) - {d}
  }

  lemma RmdirDots(t: Dirs, depth: map<nat, nat>, d: nat)
    requires Shape(t, depth) && d in t && d != 0 && |t[d]| == 2
    ensures var n := Rmdir(t, Parent(t, d), d); SameDots(t, n, {d}) && n.Keys == t.Keys - {d}
  {
    hide EntriesOk, NamedAt, Dots, Shape;
    IsDir(t, depth, d);
    Named(t, depth, d);
    var n := Rmdir(t, Parent(t, d), d);
    forall x | x in t && x != d ensures Dots(t, x) && Dots(n, x) && Parent(n, x) == Parent(t, x) {
      NotBelow(t, depth, d, x);
      IsDir(t, depth, x);
      DotsKept(t, n, x);
    }
  }

  lemma RmdirEntries(t: Dirs, depth: map<nat, nat>, d: nat, x: nat)
    requires Shape(t, depth) && d in t && d != 0 && |t[d]| == 2 && x in t && x != d
    ensures var n := Rmdir(t, Parent(t, d), d); x in n && EntriesOk(n, x)
  {
    hide Proper, NamedAt, EntryOk, Different, Dots;
    var p := Parent(t, d);
    Named(t, depth, d);
    RmdirDots(t, depth, d);
    var n := Rmdir(t, p, d);
    assert EntriesOk(t, x);
    forall i | 2 <= i < |t[x]| && t[x][i].ino != d ensures EntryOk(n, x, t[x][i]) { EntryKept(t, n, {d}, x, t[x][i]); }
    forall i | 2 <= i < |t[x]| && t[x][i].ino == d ensures x == p && i == FindIno(t[p], d) { EntryOf(t, depth, x, d); }
    if x == p { DifferentWithout(t[p], FindIno(t[p], d)); }
  }

  /** An empty directory is nobody's parent. */
  lemma NotBelow(t: Dirs, depth: map<nat, nat>, d: nat, y: nat)
    requires Shape(t, depth) && d in t && d != 0 && |t[d]| == 2 && y in t
    ensures Dots(t, y) && Parent(t, y) != d
  {
    hide EntriesOk;
    if y != 0 && Parent(t, y) == d { Named(t, depth, y); }
  }

  lemma EntryOf(t: Dirs, depth: map<nat, nat>, x: nat, d: nat)
    requires Shape(t, depth) && d in t && d != 0 && x in t && exists i :: 2 <= i < |t[x]| && t[x][i].ino == d
    ensures Parent(t, d) == x && FindIno(t[x], d) >= 2 && forall i | 2 <= i < |t[x]| && t[x][i].ino == d ::
      i == FindIno(t[x], d)
  {
    hide NamedAt;
    assert EntriesOk(t, x);
    var i :| 2 <= i < |t[x]| && t[x][i].ino == d;
    OneEntry(t, depth, x, i);
  }

  /** Removing an empty directory through its parent keeps the tree. */
  lemma RmdirKeeps(t: Dirs, depth: map<nat, nat>, d: nat)
    requires Shape(t, depth) && d in t && d != 0 && |t[d]| == 2
    ensures Shape(Rmdir(t, Parent(t, d), d), depth - {d})
  {
    hide EntriesOk, Proper, NamedAt, Dots, Rmdir, Shape;
    IsDir(t, depth, d);
    var n := Rmdir(t, Parent(t, d), d);
    RmdirDots(t, depth, d);
    DepthLess(t, depth, d);
    forall x | x in n ensures Dots(n, x) && EntriesOk(n, x) {
      IsDir(t, depth, x);
      RmdirEntries(t, depth, d, x);
    }
    forall x | x in n && x != 0
      ensures Parent(n, x) in n && (depth - {d})[x] == (depth - {d})[Parent(n, x)] + 1 && exists i :: NamedAt(n, x, i)
    {
      IsDir(t, depth, x);
      Named(t, depth, x);
      NotBelow(t, depth, d, x);
      RmdirNamed(t, depth, d, x);
    }
    IsTree(n, depth - {d});
  }

  lemma DepthLess(t: Dirs, depth: map<nat, nat>, d: nat)
    requires Shape(t, depth) && d in t && d != 0
    ensures (depth - {d}).Keys == t.Keys - {d} && depth.Keys == t.Keys && depth[0] == 0
  {
    hide EntriesOk, NamedAt;
  }

  lemma IsTree(n: Dirs, depth: map<nat, nat>)
    requires depth.Keys == n.Keys && 0 in n && (forall x | x in n :: Dots(n, x)) && Parent(n, 0) == 0 && depth[0] == 0
    requires forall x | x in n :: EntriesOk(n, x)
    requires forall x | x in n && x != 0 :: depth[x] == depth[Parent(n, x)] + 1 && exists i :: NamedAt(n, x, i)
    ensures Shape(n, depth)
  {
    hide EntriesOk, NamedAt;
  }

  lemma RmdirNamed(t: Dirs, depth: map<nat, nat>, d: nat, x: nat)
    requires Shape(t, depth) && d in t && d != 0 && |t[d]| == 2 && x in t && x != d && x != 0
    ensures var n := Rmdir(t, Parent(t, d), d); Dots(n, x) && exists i :: NamedAt(n, x, i)
  {
    hide EntriesOk, Proper, Dots, Shape;
    IsDir(t, depth, d);
    IsDir(t, depth, x);
    var p := Parent(t, d);
    var n := Rmdir(t, p, d);
    RmdirDots(t, depth, d);
    NotBelow(t, depth, d, x);
    Named(t, depth, d);
    Named(t, depth, x);
    var at := FindIno(t[p], d);
    var i := FindIno(t[Parent(t, x)], x);
    assert NamedAt(n, x, if Parent(t, x) == p && i > at then i - 1 else i);
  }

  /** Coming through anything but the parent leaves an entry for a directory that is no more. */
  lemma RmdirBreaks(t: Dirs, depth: map<nat, nat>, via: nat, d: nat, depth2: map<nat, nat>)
    requires Shape(t, depth) && d in t && d != 0 && via in t && via != Parent(t, d)
    ensures !Shape(Rmdir(t, via, d), depth2)
  {
    hide Shape, EntriesOk, NamedAt, Proper;
    IsDir(t, depth, d);
    Named(t, depth, d);
    var p := Parent(t, d);
    var i := FindIno(t[p], d);
    var n := Rmdir(t, via, d);
    assert p != d && p in n && n[p] == t[p];
    EntryGone(n, depth2, p, i);
  }

  /** In a tree every entry for a directory leads to one. */
  lemma EntryGone(n: Dirs, depth2: map<nat, nat>, p: nat, i: int)
    requires p in n && 2 <= i < |n[p]| && n[p][i].kind == Directory && n[p][i].ino !in n
    ensures !Shape(n, depth2)
  {
    hide NamedAt, Proper, Different;
    assert Shape(n, depth2) ==> EntriesOk(n, p) && EntryOk(n, p, n[p][i]);
  }

  /** How a directory was entered: through its parent, unless the last name is a dot. */
  lemma {:induction false} EnteredBy(t: Dirs, depth: map<nat, nat>, d0: nat, via: nat, names: seq<string>)
    requires Shape(t, depth) && d0 in t && names != [] && Walk(t, d0, via, names).Dir?
    ensures var r := Walk(t, d0, via, names); var n := names[|names| - 1];
      && r.ino in t && r.via in t && Dots(t, r.ino) && Dots(t, r.via)
      && (if n == "." then r.ino == r.via else if n == ".." then r.ino == Parent(t, r.via)
         else r.via == Parent(t, r.ino))
    decreases |names|
  {
    hide Shape, EntriesOk, NamedAt;
    IsDir(t, depth, d0);
    DotsFound(t, d0);
    var i := Find(t[d0], names[0]);
    if i >= 2 { NameIs(t, depth, d0, i); }
    var c := t[d0][i].ino;
    IsDir(t, depth, c);
    if |names| == 1 {
      assert names[1..] == [];
    } else {
      EnteredBy(t, depth, c, d0, names[1..]);
      assert names[1..][|names| - 2] == names[|names| - 1];
    }
  }

  /** `sys_rmdir` of an empty directory keeps the tree exactly when the path does not end in a dot. */
  lemma RmdirIff(t: Dirs, depth: map<nat, nat>, names: seq<string>)
    requires Shape(t, depth) && names != [] && Walk(t, 0, 0, names).Dir?
    requires var r := Walk(t, 0, 0, names); r.ino != 0 && r.ino in t && |t[r.ino]| == 2
    ensures var r := Walk(t, 0, 0, names);
      r.via in t && ((exists depth2 :: Shape(Rmdir(t, r.via, r.ino), depth2)) <==> names[|names| - 1] != ".")
  {
    hide Shape, EntriesOk, NamedAt, Walk, Rmdir, Dots;
    var r := Walk(t, 0, 0, names);
    HasRoot(t, depth);
    EnteredBy(t, depth, 0, 0, names);
    IsDir(t, depth, r.ino);
    IsDir(t, depth, r.via);
    NotBelow(t, depth, r.ino, r.via);
    Named(t, depth, r.ino);
    if names[|names| - 1] == "." {
      forall depth2 ensures !Shape(Rmdir(t, r.via, r.ino), depth2) { RmdirBreaks(t, depth, r.via, r.ino, depth2); }
    } else {
      RmdirKeeps(t, depth, r.ino);
    }
  }

  /** A root with one empty directory `a`. */
  function OneDir(): Dirs {
    map[0 := [Entry(".", 0, Directory), Entry("..", 0, Directory), Entry("a", 1, Directory)],
        1 := [Entry(".", 1, Directory), Entry("..", 0, Directory)]]
  }

  /** `rmdir /a/.` leaves the name `a` without a directory. */
  lemma RmdirDotExample()
    ensures var t := OneDir(); var r := Walk(t, 0, 0, ["a", "."]);
      && Shape(t, map[0 := 0, 1 := 1]) && r == Dir(1, 1) && Find(Rmdir(t, 1, 1)[0], "a") == 2 && 1 !in Rmdir(t, 1, 1)
      && forall depth2 :: !Shape(Rmdir(t, 1, 1), depth2)
  {
    var t := OneDir();
    var depth: map<nat, nat> := map[0 := 0, 1 := 1];
    assert t.Keys == {0, 1} == depth.Keys;
    assert Proper("a") && Dots(t, 0) && Dots(t, 1) && NamedAt(t, 1, 2);
    assert EntryOk(t, 0, t[0][2]);
    assert Shape(t, depth);
    ExampleWalk();
    forall depth2 ensures !Shape(Rmdir(t, 1, 1), depth2) { RmdirBreaks(t, depth, 1, 1, depth2); }
  }

  lemma ExampleWalk()
    ensures var t := OneDir(); Walk(t, 0, 0, ["a", "."]) == Dir(1, 1) && Find(Rmdir(t, 1, 1)[0], "a") == 2
  {
    var t: Dirs := OneDir();
    assert t[0][0].name == "." && t[0][1].name == ".." && t[0][2].name == "a" && t[1][0].name == ".";
    assert Find(t[0], "a") == 2 && Find(t[1], ".") == 0;
    assert ["a", "."][1..] == ["."] && ["."][1..] == [];
    assert Walk(t, 1, 1, []) == Dir(1, 1);
    assert Walk(t, 1, 0, ["."]) == Dir(1, 1);
  }

  lemma HasRoot(t: Dirs, depth: map<nat, nat>)
    requires Shape(t, depth)
    ensures 0 in t
  {
  }

  // ---------------------------------------------------------------- where things end up

  /** Where the search stops for a missing name or a file: `parent_dir` is where the names before it lead, and the
      name is not there, or is that file's. */
  lemma {:induction false} WalkStops(t: Dirs, depth: map<nat, nat>, d: nat, via: nat, names: seq<string>)
    requires Shape(t, depth) && d in t && forall i :: 0 <= i < |names| ==> Name(names[i])
    ensures var r := Walk(t, d, via, names);
      r.Missing? ==>
        && 0 < r.left <= |names| && r.via in t && Find(t[r.via], names[|names| - r.left]) == -1
        && PathOf(t, depth, r.via) == Fold(PathOf(t, depth, d), names[..|names| - r.left])
    ensures var r := Walk(t, d, via, names);
      r.File? ==> exists j: nat ::
        && j < |names| && r.via in t && FileAt(t, r.via, names[j], r.ino)
        && PathOf(t, depth, r.via) == Fold(PathOf(t, depth, d), names[..j])
    decreases |names|
  {
    hide Shape, EntriesOk, NamedAt, PathOf, NameOf, Apply;
    if names != [] {
      IsDir(t, depth, d);
      var i := Find(t[d], names[0]);
      var rest := names[1..];
      assert names[..0] == [];
      if i != -1 && t[d][i].kind == Directory {
        StepPath(t, depth, d, i);
        WalkStops(t, depth, t[d][i].ino, d, rest);
        var r := Walk(t, d, via, names);
        if r.Missing? { FoldOne(PathOf(t, depth, d), names, |names| - r.left); }
        if r.File? {
          var j: nat :|
            && j < |rest| && r.via in t && FileAt(t, r.via, rest[j], r.ino)
            && PathOf(t, depth, r.via) == Fold(PathOf(t, depth, t[d][i].ino), rest[..j]);
          FoldOne(PathOf(t, depth, d), names, j + 1);
          assert rest[j] == names[j + 1];
        }
      } else if i != -1 {
        assert FileAt(t, d, names[0], t[d][i].ino);
      }
    }
  }

  /** The entry for a name is a regular file's. */
  predicate FileAt(t: Dirs, d: nat, name: string, ino: nat) {
    d in t && Find(t[d], name) >= 0 && t[d][Find(t[d], name)] == Entry(name, ino, Regular)
  }

  lemma FoldOne(st: seq<string>, names: seq<string>, k: nat)
    requires 0 < k <= |names|
    ensures Fold(st, names[..k]) == Fold(Apply(st, names[0]), names[1..][..k - 1])
  {
    assert names[..k][1..] == names[1..][..k - 1];
  }

  /** The search for all but the last name succeeds. */
  lemma {:induction false} AllButLast(t: Dirs, d: nat, via: nat, names: seq<string>)
    requires Walk(t, d, via, names).Missing? && Walk(t, d, via, names).left == 1
    ensures names != [] && Walk(t, d, via, names[..|names| - 1]).Dir?
    ensures Walk(t, d, via, names[..|names| - 1]).ino == Walk(t, d, via, names).via
    decreases |names|
  {
    var i := Find(t[d], names[0]);
    if i == -1 {
      assert names[..0] == [];
    } else {
      AllButLast(t, t[d][i].ino, d, names[1..]);
      assert names[..|names| - 1][1..] == names[1..][..|names| - 2];
    }
  }

  /** An entry that is there stays what its name leads to. */
  lemma FindInserted(es: seq<Entry>, at: nat, e: Entry, name: string)
    requires at <= |es| && name != e.name
    ensures var i, j := Find(es, name), Find(Inserted(es, at, e), name);
      if i == -1 then j == -1 else j >= 0 && Inserted(es, at, e)[j] == es[i]
  {
    var r := Inserted(es, at, e);
    var i := Find(es, name);
    var k := if i < at then i else i + 1;
    assert r[at] == e && (i != -1 ==> r[k] == es[i]);
    var j := Find(r, name);
    if j != -1 { assert r[j] == es[if j < at then j else j - 1]; }
  }

  lemma FindNew(es: seq<Entry>, at: nat, e: Entry)
    requires at <= |es| && Find(es, e.name) == -1
    ensures Find(Inserted(es, at, e), e.name) == at
  {
    var r := Inserted(es, at, e);
    assert r[at] == e;
    var j := Find(r, e.name);
    assert 0 <= j <= at;
  }

  /** What could be reached before `mkdir` is reached after it. */
  lemma {:induction false} WalkKept(t: Dirs, p: nat, name: string, ino: nat, at: nat, d: nat, via: nat,
      names: seq<string>)
    requires p in t && at <= |t[p]| && ino !in t && Find(t[p], name) == -1 && Walk(t, d, via, names).Dir?
    ensures Walk(Mkdir(t, p, name, ino, at), d, via, names) == Walk(t, d, via, names)
    decreases |names|
  {
    if names != [] {
      var n := Mkdir(t, p, name, ino, at);
      var i := Find(t[d], names[0]);
      if d == p && names[0] != name { FindInserted(t[p], at, Entry(name, ino, Directory), names[0]); }
      WalkKept(t, p, name, ino, at, t[d][i].ino, d, names[1..]);
    }
  }

  /** The new directory is found under the whole path. */
  lemma MkdirFound(t: Dirs, name: string, ino: nat, at: nat, names: seq<string>)
    requires var r := Walk(t, 0, 0, names);
      r.Missing? && r.left == 1 && names != [] && names[|names| - 1] == name && r.via in t && at <= |t[r.via]| &&
        ino !in t
    requires Find(t[Walk(t, 0, 0, names).via], name) == -1
    ensures var p := Walk(t, 0, 0, names).via; Walk(Mkdir(t, p, name, ino, at), 0, 0, names) == Dir(ino, p)
  {
    hide Walk, Mkdir;
    var p := Walk(t, 0, 0, names).via;
    var n := Mkdir(t, p, name, ino, at);
    var front := names[..|names| - 1];
    AllButLast(t, 0, 0, names);
    WalkKept(t, p, name, ino, at, 0, 0, front);
    WalkAppend(n, 0, 0, front, name);
    assert front + [name] == names;
    NewEntryFound(t, p, name, ino, at);
    WalkOne(n, p, Walk(n, 0, 0, front).via, name);
  }

  lemma NewEntryFound(t: Dirs, p: nat, name: string, ino: nat, at: nat)
    requires p in t && at <= |t[p]| && ino !in t && Find(t[p], name) == -1
    ensures var n := Mkdir(t, p, name, ino, at);
      p in n && Find(n[p], name) == at && at < |n[p]| && n[p][at] == Entry(name, ino, Directory)
  {
    FindNew(t[p], at, Entry(name, ino, Directory));
  }

  /** A directory's name is that of its entry. */
  lemma NameIsAt(t: Dirs, depth: map<nat, nat>, d: nat, i: int)
    requires Shape(t, depth) && d in t && d != 0 && NamedAt(t, d, i)
    ensures NameOf(t, depth, d) == t[Parent(t, d)][i].name &&
      PathOf(t, depth, d) == PathOf(t, depth, Parent(t, d)) + [t[Parent(t, d)][i].name]
  {
    hide Shape, EntriesOk;
    IsDir(t, depth, d);
    OneEntry(t, depth, Parent(t, d), i);
  }

  /** `mkdir` moves no directory. */
  lemma {:induction false} MkdirPaths(t: Dirs, depth: map<nat, nat>, p: nat, name: string, ino: nat, at: nat, d: nat)
    requires Shape(t, depth) && p in t && 2 <= at <= |t[p]| && UnusedIno(t, ino) && Proper(name) &&
      Find(t[p], name) == -1
    requires d in t && Shape(Mkdir(t, p, name, ino, at), depth[ino := depth[p] + 1])
    ensures d in Mkdir(t, p, name, ino, at)
    ensures PathOf(Mkdir(t, p, name, ino, at), depth[ino := depth[p] + 1], d) == PathOf(t, depth, d)
    decreases depth[d]
  {
    hide Shape, EntriesOk, Dots, Mkdir, NameOf, PathOf;
    IsDir(t, depth, p);
    var n, depth2 := Mkdir(t, p, name, ino, at), depth[ino := depth[p] + 1];
    MkdirHas(t, p, name, ino, at);
    if d == 0 {
      RootPath(t, depth);
      RootPath(n, depth2);
    } else {
      IsDir(t, depth, d);
      Named(t, depth, d);
      var q := Parent(t, d);
      var i := FindIno(t[q], d);
      MkdirDots(t, depth, p, name, ino, at);
      KeptDots(t, n, d);
      var j := EntryMoved(t, p, name, ino, at, d, i);
      NameIsAt(t, depth, d, i);
      NameIsAt(n, depth2, d, j);
      MkdirPaths(t, depth, p, name, ino, at, q);
    }
  }

  lemma EntryMoved(t: Dirs, p: nat, name: string, ino: nat, at: nat, d: nat, i: int) returns (j: int)
    requires p in t && 2 <= at <= |t[p]| && Dots(t, d) && NamedAt(t, d, i) && ino !in t
    requires var n := Mkdir(t, p, name, ino, at); Dots(n, d) && Parent(n, d) == Parent(t, d)
    ensures var n := Mkdir(t, p, name, ino, at); NamedAt(n, d, j) && n[Parent(t, d)][j] == t[Parent(t, d)][i]
  {
    j := if Parent(t, d) == p && i >= at then i + 1 else i;
  }

  /** The trees have the old directories in common, each where it was. */
  ghost predicate PathsKept(t: Dirs, depth: map<nat, nat>, n: Dirs, depth2: map<nat, nat>, ds: set<nat>) {
    && Shape(t, depth) && Shape(n, depth2)
    && forall d | d in ds :: d in t && d in n && PathOf(n, depth2, d) == PathOf(t, depth, d)
  }

  /** Everything about the place of a new directory. */
  lemma MkdirPlace(t: Dirs, depth: map<nat, nat>, p: nat, ino: nat, at: nat, names: seq<string>)
    requires Shape(t, depth) && UnusedIno(t, ino) && (forall i :: 0 <= i < |names| ==> Name(names[i])) && names != []
    requires Walk(t, 0, 0, names) == Missing(p, 1) && p in t && p in depth && 2 <= at <= |t[p]|
    requires Proper(names[|names| - 1]) && Find(t[p], names[|names| - 1]) == -1
    ensures var n, depth2 := Mkdir(t, p, names[|names| - 1], ino, at), depth[ino := depth[p] + 1];
      && PathsKept(t, depth, n, depth2, t.Keys) && ino in n
      && Walk(n, 0, 0, names) == Dir(ino, p) && PathOf(n, depth2, ino) == Fold([], names)
  {
    hide Shape, Walk, Mkdir, PathOf, Fold;
    var name := names[|names| - 1];
    var n, depth2 := Mkdir(t, p, name, ino, at), depth[ino := depth[p] + 1];
    MkdirKeeps(t, depth, p, name, ino, at);
    MkdirFound(t, name, ino, at, names);
    HasRoot(n, depth2);
    RootPath(n, depth2);
    WalkFolds(n, depth2, 0, 0, names);
    forall d | d in t ensures d in n && PathOf(n, depth2, d) == PathOf(t, depth, d) {
      MkdirPaths(t, depth, p, name, ino, at, d);
    }
  }

  /** After `rmdir` the path leads nowhere. */
  lemma {:induction false} RmdirGone(t: Dirs, depth: map<nat, nat>, d: nat, x: nat, via: nat, names: seq<string>)
    requires Shape(t, depth) && d in t && d != 0 && |t[d]| == 2 && x in t && x != d
    requires Walk(t, x, via, names).Dir? && Walk(t, x, via, names).ino == d
    ensures Walk(Rmdir(t, Parent(t, d), d), x, via, names).Missing?
    decreases |names|
  {
    hide Shape, EntriesOk, NamedAt, Dots;
    IsDir(t, depth, d);
    IsDir(t, depth, x);
    Named(t, depth, d);
    var n := Rmdir(t, Parent(t, d), d);
    var i := Find(t[x], names[0]);
    var c := t[x][i].ino;
    SubDir(t, depth, x, i);
    FoundAfter(t, depth, d, x, names[0]);
    if c != d { RmdirGone(t, depth, d, c, x, names[1..]); }
  }

  /** `rmdir` moves no other directory. */
  lemma {:induction false} RmdirPaths(t: Dirs, depth: map<nat, nat>, d: nat, x: nat)
    requires Shape(t, depth) && d in t && d != 0 && |t[d]| == 2 && x in t && x != d
    requires Shape(Rmdir(t, Parent(t, d), d), depth - {d})
    ensures x in Rmdir(t, Parent(t, d), d)
    ensures PathOf(Rmdir(t, Parent(t, d), d), depth - {d}, x) == PathOf(t, depth, x)
    decreases depth[x]
  {
    hide Shape, EntriesOk, Dots, Rmdir, NameOf, PathOf;
    IsDir(t, depth, d);
    var n, depth2 := Rmdir(t, Parent(t, d), d), depth - {d};
    RmdirDots(t, depth, d);
    if x == 0 {
      RootPath(t, depth);
      RootPath(n, depth2);
    } else {
      IsDir(t, depth, x);
      Named(t, depth, x);
      Named(t, depth, d);
      NotBelow(t, depth, d, x);
      var q := Parent(t, x);
      var i := FindIno(t[q], x);
      OtherDots(t, n, d, x);
      var j := EntryLeft(t, depth, d, x, i);
      NameIsAt(t, depth, x, i);
      NameIsAt(n, depth2, x, j);
      RmdirPaths(t, depth, d, q);
    }
  }

  lemma OtherDots(t: Dirs, n: Dirs, d: nat, x: nat)
    requires SameDots(t, n, {d}) && x in t && x != d && Dots(t, x)
    ensures Dots(n, x) && Parent(n, x) == Parent(t, x)
  {
  }

  lemma EntryLeft(t: Dirs, depth: map<nat, nat>, d: nat, x: nat, i: int) returns (j: int)
    requires Dots(t, d) && Dots(t, x) && d != x && Parent(t, x) != d && NamedAt(t, x, i)
    requires 2 <= FindIno(t[Parent(t, d)], d) < |t[Parent(t, d)]|
    requires var n := Rmdir(t, Parent(t, d), d); Dots(n, x) && Parent(n, x) == Parent(t, x)
    ensures var n := Rmdir(t, Parent(t, d), d); NamedAt(n, x, j) && n[Parent(t, x)][j] == t[Parent(t, x)][i]
  {
    j := if Parent(t, x) == Parent(t, d) && i > FindIno(t[Parent(t, d)], d) then i - 1 else i;
  }

  /** Everything about `rmdir` through a path that does not end in a dot. */
  lemma RmdirPlace(t: Dirs, depth: map<nat, nat>, names: seq<string>)
    requires Shape(t, depth) && names != [] && names[|names| - 1] != "." && Walk(t, 0, 0, names).Dir?
    requires var r := Walk(t, 0, 0, names); r.ino != 0 && r.ino in t && |t[r.ino]| == 2
    ensures var r := Walk(t, 0, 0, names); r.via in t && Dots(t, r.ino) && r.via == Parent(t, r.ino)
    ensures var r := Walk(t, 0, 0, names); var n, depth2 := Rmdir(t, r.via, r.ino), depth - {r.ino};
      PathsKept(t, depth, n, depth2, t.Keys - {r.ino}) && r.ino !in n && Walk(n, 0, 0, names).Missing?
  {
    hide Shape, Walk, PathOf, EntriesOk, NamedAt;
    var r := Walk(t, 0, 0, names);
    HasRoot(t, depth);
    EnteredBy(t, depth, 0, 0, names);
    IsDir(t, depth, r.ino);
    IsDir(t, depth, r.via);
    NotBelow(t, depth, r.ino, r.via);
    RmdirKeeps(t, depth, r.ino);
    RmdirGone(t, depth, r.ino, 0, 0, names);
    forall x | x in t && x != r.ino
      ensures x in Rmdir(t, r.via, r.ino) && PathOf(Rmdir(t, r.via, r.ino), depth - {r.ino}, x) == PathOf(t, depth, x)
    {
      RmdirPaths(t, depth, r.ino, x);
    }
  }

  /** Without the entry of `d`, exactly the name of `d` is no longer found. */
  lemma FoundAfter(t: Dirs, depth: map<nat, nat>, d: nat, x: nat, name: string)
    requires Shape(t, depth) && d in t && d != 0 && |t[d]| == 2 && x in t && x != d
    ensures Dots(t, d)
    ensures var n := Rmdir(t, Parent(t, d), d); var i := Find(t[x], name);
      && x in n && i >= 0 && t[x][i].kind == Directory ==>
        if t[x][i].ino == d then Find(n[x], name) == -1
        else Find(n[x], name) >= 0 && n[x][Find(n[x], name)] == t[x][i]
  {
    hide Shape, EntriesOk, NamedAt, Dots, Proper;
    IsDir(t, depth, d);
    IsDir(t, depth, x);
    Named(t, depth, d);
    NotBelow(t, depth, d, x);
    var p := Parent(t, d);
    var at := FindIno(t[p], d);
    OneEntry(t, depth, p, at);
    ProperEntry(t, depth, p, at);
    var i := Find(t[x], name);
    if i >= 2 && t[x][i].kind == Directory {
      NameIs(t, depth, x, i);
      OneEntry(t, depth, x, i);
    }
    DotsOf(t, x);
    if x == p { FindWithout(t[p], at, name); }
  }

  lemma DotsOf(t: Dirs, x: nat)
    requires Dots(t, x)
    ensures t[x][0].ino == x && t[x][1].ino == Parent(t, x)
  {
  }

  lemma FindWithout(es: seq<Entry>, at: nat, name: string)
    requires at < |es| && Find(es, es[at].name) == at && forall i | at < i < |es| :: es[i].name != es[at].name
    ensures var i, j := Find(es, name), Find(Without(es, at), name);
      if i == -1 || i == at then j == -1 else j >= 0 && Without(es, at)[j] == es[i]
  {
    var r := Without(es, at);
    var i := Find(es, name);
    if i != -1 && i != at {
      var k := if i < at then i else i - 1;
      assert r[k] == es[i];
    }
    forall k | 0 <= k < |r| && i == at ensures r[k].name != name { assert r[k] == es[if k < at then k else k + 1]; }
  }

  // ---------------------------------------------------------------- a process and its current directory

  /** 0, -1, a failed ASSERT, or a call that goes on with an inode number nobody has written. */
  datatype Outcome = Done | Refused | Panicked | Undefined

  class FileTree {
    var t: Dirs
    var cwd: nat
    ghost var depth: map<nat, nat>

    ghost predicate Valid()
      reads this
    {
      Shape(t, depth) && cwd in t
    }

    constructor ()
      ensures Valid() && cwd == 0 && t == map[0 := [Entry(".", 0, Directory), Entry("..", 0, Directory)]]
    {
      t, cwd, depth := map[0 := [Entry(".", 0, Directory), Entry("..", 0, Directory)]], 0, map[0 := 0];
    }

    /** `search_file` */
    method SearchFile(path: string) returns (r: Found)
      requires Valid()
      ensures r.Failed? <==> !Accepted(path)
      ensures r.Unset? <==> Slashes(path)
      ensures !r.Failed? && !r.Unset? ==> r == Walk(t, 0, 0, Components(path))
      ensures r.Dir? ==> r.ino in t && PathOf(t, depth, r.ino) == Fold([], Components(path))
      ensures r.Missing? ==> var names := Components(path);
        && 0 < r.left <= |names| && r.via in t && Find(t[r.via], names[|names| - r.left]) == -1
        && PathOf(t, depth, r.via) == Fold([], names[..|names| - r.left])
      ensures r.File? ==> exists j: nat ::
        && j < |Components(path)| && r.via in t && FileAt(t, r.via, Components(path)[j], r.ino)
        && PathOf(t, depth, r.via) == Fold([], Components(path)[..j])
    {
      hide Shape, Components, Dots, PathOf, Fold, FileAt, Proper;
      ComponentsAreNames(path);
      HasRoot(t, depth);
      RootPath(t, depth);
      WalkStops(t, depth, 0, 0, Components(path));
      WalkFolds(t, depth, 0, 0, Components(path));
      NotSlashes();
      if path == "/" || path == "/." || path == "/.." {
        RootPaths(t, depth);
        return Dir(0, 0);
      }
      WalkKinds(t, 0, 0, Components(path));
      if !(path != "" && path[0] == '/' && 1 < |path| < MAX_PATH_LEN) {
        return Failed;
      }
      HasRoot(t, depth);
      var sub: Option<string>;
      var name: string;
      var d, via := 0, 0;
      name, sub := PathParse(path);
      NoComponents();
      if name == "" {
        return Unset;
      }
      ghost var todo := Components(path);
      var searched := "";
      while name != ""
        invariant todo == (if name == "" then [] else [name] + Components(Tail(sub)))
        invariant d in t && Walk(t, d, via, todo) == Walk(t, 0, 0, Components(path))
        invariant sub.Some? ==> sub.value != "" && sub.value[0] == '/'
        invariant |searched| + (if name == "" then 0 else 1 + |name| + |Tail(sub)|) <= |path|
        decreases if name == "" then 0 else 1 + |Tail(sub)|
      {
        assert |searched| < MAX_PATH_LEN;
        searched := searched + "/" + name;
        var i := Find(t[d], name);
        if i == -1 {
          var more := PathDepth(Tail(sub));
          return Missing(d, 1 + more);
        }
        var e := t[d][i];
        todo := todo[1..];
        name := "";
        if sub.Some? {
          name, sub := PathParse(sub.value);
        }
        if e.kind == Directory {
          SubDir(t, depth, d, i);
          d, via := e.ino, d;
        } else {
          return File(e.ino, d);
        }
      }
      r := Dir(d, via);
    }

    /** `sys_mkdir`; `ino` is the inode number allocated, `slot` where the entry finds room. */
    method MkdirAt(path: string, ino: nat, slot: nat) returns (r: Outcome)
      requires Valid() && UnusedIno(t, ino)
      modifies this`t, this`depth
      ensures Valid() && (r.Panicked? <==> !Accepted(path)) && (r.Undefined? <==> Slashes(path))
      ensures r.Done? <==> var f := Walk(old(t), 0, 0, Components(path)); Accepted(path) && f.Missing? && f.left == 1
      ensures !r.Done? ==> t == old(t)
      ensures r.Done? ==> Components(path) != []
      ensures r.Done? ==> var f := Walk(old(t), 0, 0, Components(path));
        var last := Components(path)[|Components(path)| - 1];
        && f.via in old(t) && ino in t && Dots(t, ino) && Parent(t, ino) == f.via
        && (exists at: nat :: 2 <= at <= |old(t)[f.via]| && t == Mkdir(old(t), f.via, last, ino, at))
      ensures r.Done? ==> Walk(t, 0, 0, Components(path)) == Dir(ino, Walk(old(t), 0, 0, Components(path)).via)
      ensures r.Done? ==> PathOf(t, depth, ino) == Fold([], Components(path))
      ensures r.Done? ==> PathsKept(old(t), old(depth), t, depth, old(t).Keys)
    {
      hide Shape, PathsKept, Components, Walk, Mkdir, Dots, UnusedIno, Slashes, Accepted, PathOf, Fold, Proper;
      var f := SearchFile(path);
      SlashesFound(t, path);
      if f.Failed? {
        return Panicked;
      }
      if f.Unset? {
        return Undefined;
      }
      if !(f.Missing? && f.left == 1) {
        return Refused;
      }
      HasRoot(t, depth);
      ComponentsAreNames(path);
      MissingLast(t, depth, 0, 0, Components(path));
      var name := LastName(path);
      IsDir(t, depth, f.via);
      var at := if slot < 2 then 2 else if slot > |t[f.via]| then |t[f.via]| else slot;
      MkdirKeeps(t, depth, f.via, name, ino, at);
      MkdirDots(t, depth, f.via, name, ino, at);
      MkdirHas(t, f.via, name, ino, at);
      MkdirPlace(t, depth, f.via, ino, at, Components(path));
      depth := depth[ino := depth[f.via] + 1];
      t := Mkdir(t, f.via, name, ino, at);
      r := Done;
    }

    /** `sys_rmdir` */
    method RmdirAt(path: string) returns (r: Outcome)
      requires Valid()
      modifies this`t, this`depth
      ensures var f := Walk(old(t), 0, 0, Components(path));
        && (r.Undefined? <==> Slashes(path))
        && (r.Panicked? <==> !Accepted(path) || (!Slashes(path) && f.Dir? && f.ino == 0))
        && (r.Done? <==> Accepted(path) && f.Dir? && f.ino != 0 && f.ino in old(t) && |old(t)[f.ino]| == 2)
        && (r.Done? ==> f.via in old(t) && t == Rmdir(old(t), f.via, f.ino))
        && (!r.Done? ==> Valid() && t == old(t))
        && (r.Done? && cwd != f.ino && Components(path)[|Components(path)| - 1] != "." ==> Valid())
      ensures r.Done? ==> Components(path) != []
      ensures r.Done? && Components(path)[|Components(path)| - 1] != "." ==>
        && Walk(t, 0, 0, Components(path)).Missing?
        && PathsKept(old(t), old(depth), t, depth, old(t).Keys - {Walk(old(t), 0, 0, Components(path)).ino})
    {
      hide Shape, Components, Walk, Rmdir, Dots, Fold, PathOf, Slashes, Accepted;
      var f := SearchFile(path);
      HasRoot(t, depth);
      SlashesFound(t, path);
      WalkNone(t);
      ComponentsAreNames(path);
      WalkFolds(t, depth, 0, 0, Components(path));
      if f.Failed? {
        return Panicked;
      }
      if f.Unset? {
        return Undefined;
      }
      if !f.Dir? {
        return Refused;
      }
      if f.ino == 0 {
        return Panicked;
      }
      if |t[f.ino]| != 2 {
        return Refused;
      }
      EnteredBy(t, depth, 0, 0, Components(path));
      IsDir(t, depth, f.ino);
      NotBelow(t, depth, f.ino, f.via);
      RmdirKeeps(t, depth, f.ino);
      RmdirDots(t, depth, f.ino);
      if Components(path)[|Components(path)| - 1] != "." { RmdirPlace(t, depth, Components(path)); }
      depth := depth - {f.ino};
      t := Rmdir(t, f.via, f.ino);
      r := Done;
    }

    /** `sys_chdir` */
    method Chdir(path: string) returns (r: Outcome)
      requires Valid()
      modifies this`cwd
      ensures Valid() && (r.Panicked? <==> !Accepted(path)) && (r.Undefined? <==> Slashes(path))
      ensures r.Done? <==> Accepted(path) && !Slashes(path) && Walk(t, 0, 0, Components(path)).Dir?
      ensures r.Done? ==>
        cwd == Walk(t, 0, 0, Components(path)).ino && PathOf(t, depth, cwd) == Fold([], Components(path))
      ensures !r.Done? ==> cwd == old(cwd)
    {
      hide Shape, Components, Walk, PathOf, Fold, Slashes, Accepted;
      var f := SearchFile(path);
      SlashesFound(t, path);
      HasRoot(t, depth);
      ComponentsAreNames(path);
      WalkFolds(t, depth, 0, 0, Components(path));
      RootPath(t, depth);
      match f {
        case Failed => r := Panicked;
        case Unset => r := Undefined;
        case Dir(ino, _) => cwd, r := ino, Done;
        case _ => r := Refused;
      }
    }

    /** `sys_getcwd`: collect the names on the way up, then turn the string round at its slashes. */
    method Getcwd() returns (buf: string)
      requires Valid()
      ensures buf == Render(PathOf(t, depth, cwd))
    {
      hide Shape, Dots, PathOf, NameOf, Find, FindIno;
      RootPath(t, depth);
      if cwd == 0 {
        return "/";
      }
      Named(t, depth, cwd);
      ghost var goal := PathOf(t, depth, cwd);
      BelowRoot(t, depth, cwd);
      var rev := "";
      var child := cwd;
      ghost var up: seq<string> := [];
      AppendNone(goal);
      while child != 0
        invariant child in t && AllProper(up) && rev == JoinBack(up)
        invariant PathOf(t, depth, child) + up == goal
        decreases if child in depth then depth[child] else 0
      {
        IsDir(t, depth, child);
        Named(t, depth, child);
        var parent := t[child][1].ino;
        var i := FindIno(t[parent], child);
        UpOne(t, depth, child, up);
        rev := rev + "/" + t[parent][i].name;
        up := [t[parent][i].name] + up;
        child := parent;
      }
      RootPath(t, depth);
      NoneAppend(up);
      buf := "";
      ghost var k := 0;
      while LastSlash(rev) != -1
        invariant 0 <= k <= |up| && rev == JoinBack(up[k..]) && buf == Join(up[..k])
        decreases |up| - k
      {
        CutBack(up, k);
        var last := LastSlash(rev);
        buf := buf + rev[last..];
        rev := rev[..last];
        k := k + 1;
      }
      CutBack(up, k);
      assert up[..|up|] == up;
      assert up == goal && k == |up|;
    }
  }

  /** Below a path of slashes there is only the root. */
  lemma SlashesFound(t: Dirs, path: string)
    ensures Slashes(path) ==> Accepted(path) && Walk(t, 0, 0, Components(path)) == Dir(0, 0)
    ensures Components(path) == [] ==> Walk(t, 0, 0, Components(path)) == Dir(0, 0)
  {
  }

  /** So the searched inode number is unset exactly for two to 511 slashes. */
  lemma SlashesIff(path: string)
    ensures Slashes(path) <==> 2 <= |path| < MAX_PATH_LEN && forall i | 0 <= i < |path| :: path[i] == '/'
  {
    NothingBetween(path);
  }

  lemma {:induction false} NothingBetween(path: string)
    ensures Components(path) == [] <==> forall i | 0 <= i < |path| :: path[i] == '/'
  {
    if path != "" && path[0] == '/' {
      NothingBetween(path[1..]);
      assert forall i | 1 <= i < |path| :: path[i] == path[1..][i - 1];
    }
  }

  lemma NotSlashes()
    ensures !Slashes("/") && !Slashes("/.") && !Slashes("/..")
  {
    hide Components;
    SkipSlash(".");
    SkipSlash("..");
    FirstWord(".", "");
    FirstWord("..", "");
    assert "." + "" == "." && ".." + "" == ".." && "/" + "." == "/." && "/" + ".." == "/..";
  }

  lemma {:induction false} WalkKinds(t: Dirs, d: nat, via: nat, names: seq<string>)
    ensures !Walk(t, d, via, names).Unset? && !Walk(t, d, via, names).Failed?
    decreases |names|
  {
    if names != [] && d in t {
      var i := Find(t[d], names[0]);
      if i >= 0 { WalkKinds(t, t[d][i].ino, d, names[1..]); }
    }
  }

  /** `path_depth_cnt` */
  method PathDepth(path: string) returns (n: nat)
    ensures n == |Components(path)|
  {
    hide Components;
    var name, sub := PathParse(path);
    NoComponents();
    n := 0;
    while name != ""
      invariant n + |if name == "" then [] else [name] + Components(Tail(sub))| == |Components(path)|
      decreases if name == "" then 0 else 1 + |Tail(sub)|
    {
      n := n + 1;
      name := "";
      if sub.Some? {
        name, sub := PathParse(sub.value);
      }
    }
  }

  /** The last name, which `sys_mkdir` takes from the searched path. */
  method LastName(path: string) returns (last: string)
    requires Components(path) != []
    ensures last == Components(path)[|Components(path)| - 1]
  {
    hide Components;
    var name, sub := PathParse(path);
    NoComponents();
    last := name;
    ghost var todo := Components(path);
    while name != ""
      invariant todo == (if name == "" then [] else [name] + Components(Tail(sub)))
      invariant if name == "" then last == Components(path)[|Components(path)| - 1]
        else todo[|todo| - 1] == Components(path)[|Components(path)| - 1]
      decreases if name == "" then 0 else 1 + |Tail(sub)|
    {
      last := name;
      todo := todo[1..];
      name := "";
      if sub.Some? {
        name, sub := PathParse(sub.value);
      }
    }
  }

  lemma MkdirHas(t: Dirs, p: nat, name: string, ino: nat, at: nat)
    requires p in t && at <= |t[p]|
    ensures t.Keys + {ino} == Mkdir(t, p, name, ino, at).Keys
  {
  }

  /** A name that is missing last is proper: the dots are never missing. */
  lemma {:induction false} MissingLast(t: Dirs, depth: map<nat, nat>, d: nat, via: nat, names: seq<string>)
    requires Shape(t, depth) && d in t && (forall i :: 0 <= i < |names| ==> Name(names[i]))
    requires Walk(t, d, via, names).Missing? && Walk(t, d, via, names).left == 1
    ensures var r := Walk(t, d, via, names);
      names != [] && r.via in t && Find(t[r.via], names[|names| - 1]) == -1 && Proper(names[|names| - 1])
    decreases |names|
  {
    hide Shape, EntriesOk, NamedAt;
    IsDir(t, depth, d);
    DotsFound(t, d);
    var i := Find(t[d], names[0]);
    if i != -1 {
      SubDir(t, depth, d, i);
      MissingLast(t, depth, t[d][i].ino, d, names[1..]);
      assert names[1..][|names| - 2] == names[|names| - 1];
    }
  }

  lemma RootPaths(t: Dirs, depth: map<nat, nat>)
    requires Shape(t, depth)
    ensures Walk(t, 0, 0, Components("/")) == Dir(0, 0) && Walk(t, 0, 0, Components("/.")) == Dir(0, 0) &&
      Walk(t, 0, 0, Components("/..")) == Dir(0, 0)
  {
    hide Shape;
    IsDir0(t, depth);
    DotsFound(t, 0);
    SkipSlash("");
    SkipSlash(".");
    SkipSlash("..");
    FirstWord(".", "");
    FirstWord("..", "");
    assert "." + "" == "." && ".." + "" == ".." && "/" + "" == "/" && "/" + "." == "/." && "/" + ".." == "/..";
    WalkOne(t, 0, 0, ".");
    WalkOne(t, 0, 0, "..");
  }

  lemma IsDir0(t: Dirs, depth: map<nat, nat>)
    requires Shape(t, depth)
    ensures Dots(t, 0) && Parent(t, 0) == 0
  {
  }

  lemma SubDir(t: Dirs, depth: map<nat, nat>, d: nat, i: int)
    requires Shape(t, depth) && d in t && 0 <= i < |t[d]| && t[d][i].kind == Directory
    ensures t[d][i].ino in t
  {
    hide Shape, PathOf;
    StepPath(t, depth, d, i);
  }

  lemma RootPath(t: Dirs, depth: map<nat, nat>)
    requires Shape(t, depth)
    ensures 0 in t && PathOf(t, depth, 0) == []
  {
  }

  /** The names of `up` in the opposite order, as `full_path_reverse` holds them. */
  function JoinBack(up: seq<string>): string {
    if up == [] then "" else JoinBack(up[1..]) + "/" + up[0]
  }

  lemma BelowRoot(t: Dirs, depth: map<nat, nat>, d: nat)
    requires Shape(t, depth) && d in t && d != 0
    ensures PathOf(t, depth, d) != []
  {
    hide EntriesOk, NamedAt;
  }

  lemma AppendNone(st: seq<string>)
    ensures st + [] == st
  {
  }

  lemma NoneAppend(st: seq<string>)
    ensures [] + st == st && st[0..] == st && st[..0] == []
  {
  }

  lemma UpOne(t: Dirs, depth: map<nat, nat>, d: nat, up: seq<string>)
    requires Shape(t, depth) && d in t && d != 0 && AllProper(up)
    ensures var p := Parent(t, d); var i := FindIno(t[p], d);
      && p in t && depth[p] < depth[d] && 0 <= i < |t[p]| &&
         PathOf(t, depth, p) + ([t[p][i].name] + up) == PathOf(t, depth, d) + up
      && AllProper([t[p][i].name] + up) && JoinBack([t[p][i].name] + up) == JoinBack(up) + "/" + t[p][i].name
  {
    hide Shape, EntriesOk, NamedAt;
    IsDir(t, depth, d);
    Named(t, depth, d);
    var p := Parent(t, d);
    var n := t[p][FindIno(t[p], d)].name;
    assert ([n] + up)[1..] == up;
    Between(PathOf(t, depth, p), n, up);
  }

  lemma Between(above: seq<string>, n: string, up: seq<string>)
    ensures above + [n] + up == above + ([n] + up)
  {
  }

  /** Cutting the reversed string at its last slash takes the next name from the top. */
  lemma CutBack(up: seq<string>, k: nat)
    requires AllProper(up) && k <= |up|
    ensures var rev := JoinBack(up[k..]); var last := LastSlash(rev);
      if k == |up| then last == -1 && rev == ""
      else last >= 0 && rev[..last] == JoinBack(up[k + 1..]) && Join(up[..k]) + rev[last..] == Join(up[..k + 1])
  {
    if k < |up| {
      var rest := up[k..];
      assert rest[1..] == up[k + 1..] && rest[0] == up[k];
      var b := JoinBack(up[k + 1..]);
      assert JoinBack(rest) == b + "/" + up[k];
      LastIs(JoinBack(rest), |b|);
      assert JoinBack(rest)[|b|..] == "/" + up[k];
      assert up[..k + 1][..k] == up[..k];
      assert Join(up[..k]) + ("/" + up[k]) == Join(up[..k]) + "/" + up[k];
    }
  }

  /** Going to any directory by its canonical path and asking where one is gives that path back; and the other way
      round, the answer leads to the same directory. */
  lemma ThereAndBack(t: Dirs, depth: map<nat, nat>, st: seq<string>, d: nat)
    requires Shape(t, depth) && AllProper(st) && d in t
    ensures Walk(t, 0, 0, Components(Render(st))).Dir? ==>
      var e := Walk(t, 0, 0, Components(Render(st))).ino; e in t && Render(PathOf(t, depth, e)) == Render(st)
    ensures var r := Walk(t, 0, 0, Components(Render(PathOf(t, depth, d)))); r.Dir? && r.ino == d
  {
    hide Shape, Walk, PathOf, Components, Fold, Render;
    SplitRender(st);
    RootPath(t, depth);
    WalkFolds(t, depth, 0, 0, st);
    FoldNothing([], st);
    assert [] + st == st;
    SplitRender(PathOf(t, depth, d));
    if d != 0 { WalkPath(t, depth, d, 0); } else { WalkNone(t); }
  }

  lemma WalkNone(t: Dirs)
    ensures Walk(t, 0, 0, []) == Dir(0, 0)
  {
  }
}
