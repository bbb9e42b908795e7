/** Unlinking redundant hard links under a temp directory, while other programs may change the
    filesystem between any two steps. The order of inodes and of their names is not fixed here:
    every statement holds for all orders. */
module Unlink {
  import opened Wrappers

  datatype Key = Key(device: int, inode: int)

  datatype Node = Node(key: Key, regular: bool)

  /** Every name on the filesystems, inside and outside the walked root. */
  type Names = map<string, Node>

  datatype Row = Row(key: Key, tempPaths: set<string>, libPaths: set<string>)

  datatype Class = NoTemp | TempOnly | InUse | Redundant

  function Stripped(prefix: string): string {
    if prefix != "" && prefix[|prefix| - 1] == '/' then Stripped(prefix[..|prefix| - 1]) else prefix
  }

  /** True if path is the prefix itself or sits inside it. */
  predicate Under(path: string, prefix: string) {
    path == Stripped(prefix) || Stripped(prefix) + "/" <= path
  }

  // ----- what lies under a directory ---------------------------------------------------------------------

  /** A path split at every '/'. */
  function Components(s: string): (c: seq<string>)
    ensures c != []
  {
    if s == "" then [""]
    else
      var rest := Components(s[1..]);
      if s[0] == '/' then [""] + rest else [[s[0]] + rest[0]] + rest[1..]
  }

  function Joined(c: seq<string>): string
    requires c != []
  {
    if |c| == 1 then c[0] else c[0] + "/" + Joined(c[1..])
  }

  lemma JoinedFirst(x: string, first: string, rest: seq<string>)
    ensures Joined([x + first] + rest) == x + Joined([first] + rest)
  {
    if rest != [] {
      assert ([x + first] + rest)[1..] == rest && ([first] + rest)[1..] == rest;
      assert (x + first) + "/" + Joined(rest) == x + (first + "/" + Joined(rest));
    }
  }

  /** The components hold no '/', and with one between any two they make up the path. */
  lemma {:induction false} ComponentsAre(s: string)
    ensures forall i :: 0 <= i < |Components(s)| ==> '/' !in Components(s)[i]
    ensures Joined(Components(s)) == s
  {
    if s != "" {
      ComponentsAre(s[1..]);
      var rest := Components(s[1..]);
      assert s == [s[0]] + s[1..];
      if s[0] == '/' {
        assert ([""] + rest)[1..] == rest;
        assert "" + "/" + s[1..] == s;
      } else {
        JoinedFirst([s[0]], rest[0], rest[1..]);
        assert [rest[0]] + rest[1..] == rest;
      }
    }
  }

  lemma StartsOneLater(path: string, dir: string)
    requires path != "" && dir != "" && path[0] == dir[0]
    ensures dir + "/" <= path <==> dir[1..] + "/" <= path[1..]
    ensures path == dir <==> path[1..] == dir[1..]
  {
    assert path == [path[0]] + path[1..] && dir == [dir[0]] + dir[1..];
    assert (dir + "/")[1..] == dir[1..] + "/";
    assert dir[1..] + "/" <= path[1..] ==> path[..|dir| + 1][1..] == dir[1..] + "/";
    assert dir + "/" <= path ==> path[1..][..|dir|] == path[..|dir| + 1][1..];
  }

  lemma BeginOnOneMore<T>(x: T, a: seq<T>, y: T, b: seq<T>)
    ensures [x] + a <= [y] + b <==> x == y && a <= b
  {
    var c, d := [x] + a, [y] + b;
    assert c[0] == x && d[0] == y && c[1..] == a && d[1..] == b;
    assert c <= d ==> d[..|c|] == c && d[1..][..|a|] == d[..|c|][1..];
    assert a <= b && x == y ==> d[..|c|] == [x] + b[..|a|];
  }

  lemma SameFirstComponents(path: string, dir: string)
    requires path != "" && dir != "" && path[0] == dir[0]
    ensures Components(dir) <= Components(path) <==> Components(dir[1..]) <= Components(path[1..])
  {
    var c, d := Components(path[1..]), Components(dir[1..]);
    assert [c[0]] + c[1..] == c && [d[0]] + d[1..] == d;
    if dir[0] == '/' {
      BeginOnOneMore("", d, "", c);
    } else {
      var x := [dir[0]];
      assert Components(dir) == [x + d[0]] + d[1..] && Components(path) == [x + c[0]] + c[1..];
      assert (x + d[0])[1..] == d[0] && (x + c[0])[1..] == c[0];
      BeginOnOneMore(x + d[0], d[1..], x + c[0], c[1..]);
      BeginOnOneMore(d[0], d[1..], c[0], c[1..]);
    }
  }

  lemma {:induction false} BeginsAsComponents(path: string, dir: string)
    ensures Components(dir) <= Components(path) <==> path == dir || dir + "/" <= path
  {
    if dir == "" {
      assert Components(dir) == [""];
      assert "" + "/" == "/";
    } else if path != "" && path[0] == dir[0] {
      BeginsAsComponents(path[1..], dir[1..]);
      StartsOneLater(path, dir);
      SameFirstComponents(path, dir);
    } else {
      assert path == "" && dir[0] == '/' ==> |Components(path)| < |Components(dir)|;
      assert dir[0] != '/' ==> Components(dir)[0][0] == dir[0];
      assert path != "" && path[0] != '/' ==> Components(path)[0][0] == path[0];
      assert Components(dir)[0] != Components(path)[0] || |Components(path)| < |Components(dir)|;
      assert (dir + "/")[0] == dir[0];
    }
  }

  predicate EndsInSlash(path: string) {
    path != "" && path[|path| - 1] == '/'
  }

  lemma NotEndingIsWhole(dir: string)
    ensures !EndsInSlash(dir) ==> Stripped(dir) == dir
  {}

  lemma StrippedAgain(dir: string)
    ensures Stripped(dir + "/") == Stripped(dir)
  {
    assert (dir + "/")[..|dir + "/"| - 1] == dir;
  }

  /** A path is under a directory when its components begin with those of the directory, so a
      sibling whose name merely begins alike is not; slashes at the end of the directory do not count. */
  lemma UnderExactly(path: string, dir: string)
    ensures !EndsInSlash(dir) ==> (Under(path, dir) <==> Components(dir) <= Components(path))
    ensures Under(path, dir + "/") <==> Under(path, dir)
  {
    BeginsAsComponents(path, dir);
    StrippedAgain(dir);
  }

  /** The regular names of an inode that a walk of the root finds. */
  function Paths(names: Names, root: string, key: Key): set<string> {
    set p | p in names && names[p] == Node(key, true) && Under(p, root)
  }

  function Walked(names: Names, root: string): map<Key, set<string>> {
    map k | k in (set p | p in names && names[p].regular && Under(p, root) :: names[p].key) :: Paths(names, root, k)
  }

  function InTemp(paths: set<string>, temp: string): set<string> {
    set p | p in paths && Under(p, temp)
  }

  predicate Held(paths: set<string>, held: set<string>) {
    exists p :: p in paths && exists h :: h in held && Under(p, h)
  }

  function ClassOf(paths: set<string>, temp: string, held: set<string>): Class {
    if InTemp(paths, temp) == {} then NoTemp
    else if paths == InTemp(paths, temp) then TempOnly
    else if Held(paths, held) then InUse
    else Redundant
  }

  function RowOf(key: Key, paths: set<string>, temp: string): Row {
    Row(key, InTemp(paths, temp), paths - InTemp(paths, temp))
  }

  function Links(names: Names, key: Key): nat {
    |set p | p in names && names[p].key == key|
  }

  predicate StillKeeps(names: Names, key: Key, path: string) {
    path in names && names[path] == Node(key, true) && Links(names, key) > 1
  }

  /** One unlink, with the filesystem on both sides of it. */
  datatype Removal = Removal(path: string, key: Key, before: Names, after: Names)

  /** The guard of the whole job: the inode has a live name outside temp behind the unlink. */
  ghost predicate Harmless(r: Removal, temp: string) {
    && Under(r.path, temp)
    && r.path in r.before && r.before[r.path] == Node(r.key, true)
    && r.after == r.before - {r.path}
    && exists p :: p in r.after && r.after[p] == Node(r.key, true) && !Under(p, temp)
  }

  ghost predicate AllHarmless(removals: seq<Removal>, temp: string) {
    forall i :: 0 <= i < |removals| ==> Harmless(removals[i], temp)
  }

  // ----- what is to be removed ---------------------------------------------------------------------------

  ghost function RedundantKeys(names: Names, root: string, temp: string, held: set<string>): set<Key> {
    set k | k in Walked(names, root) && ClassOf(Paths(names, root, k), temp, held) == Redundant
  }

  /** The temp names of these inodes under the root. */
  ghost function NamesOf(names: Names, root: string, temp: string, keys: set<Key>): set<string> {
    set p | p in names && names[p].regular && names[p].key in keys && Under(p, root) && Under(p, temp)
  }

  ghost function WithoutNamesOf(names: Names, root: string, temp: string, keys: set<Key>): Names {
    names - NamesOf(names, root, temp, keys)
  }

  lemma NothingWorkedOn(names: Names, root: string, temp: string)
    ensures WithoutNamesOf(names, root, temp, {}) == names
  {
    assert NamesOf(names, root, temp, {}) == {};
  }

  ghost function RedundantNames(names: Names, root: string, temp: string, held: set<string>): set<string> {
    NamesOf(names, root, temp, RedundantKeys(names, root, temp, held))
  }

  // ----- classification ----------------------------------------------------------------------------------

  /** The rows of one class, each inode once. */
  ghost predicate Lists(rows: seq<Row>, inodes: map<Key, set<string>>, temp: string, held: set<string>, wanted: Class) {
    && (forall i, j :: 0 <= i < j < |rows| ==> rows[i].key != rows[j].key)
    && (forall i :: 0 <= i < |rows| ==>
          rows[i].key in inodes
          && ClassOf(inodes[rows[i].key], temp, held) == wanted
          && rows[i] == RowOf(rows[i].key, inodes[rows[i].key], temp))
    && (forall k :: k in inodes && ClassOf(inodes[k], temp, held) == wanted ==> HasRow(rows, k))
  }

  ghost predicate HasRow(rows: seq<Row>, key: Key) {
    exists i :: 0 <= i < |rows| && rows[i].key == key
  }

  ghost function Grown(rows: seq<Row>, key: Key, paths: set<string>, temp: string, held: set<string>,
                       wanted: Class): seq<Row>
  {
    if ClassOf(paths, temp, held) == wanted then rows + [RowOf(key, paths, temp)] else rows
  }

  lemma ListsGrow(rows: seq<Row>, seen: map<Key, set<string>>, temp: string, held: set<string>, wanted: Class,
                  key: Key, paths: set<string>)
    requires Lists(rows, seen, temp, held, wanted) && key !in seen
    ensures Lists(Grown(rows, key, paths, temp, held, wanted), seen[key := paths], temp, held, wanted)
  {
    var more := Grown(rows, key, paths, temp, held, wanted);
    forall k | k in seen[key := paths] && ClassOf(seen[key := paths][k], temp, held) == wanted
      ensures HasRow(more, k)
    {
      if k == key {
        assert more[|rows|].key == key;
      } else {
        assert HasRow(rows, k);
        var i :| 0 <= i < |rows| && rows[i].key == k;
        assert more[i].key == k;
      }
    }
  }

  lemma NoLibrary(paths: set<string>, temp: string)
    ensures paths - InTemp(paths, temp) == {} <==> paths == InTemp(paths, temp)
  {
    assert paths == (paths - InTemp(paths, temp)) + InTemp(paths, temp);
  }

  /** The body of the loop: one inode goes to one list, or to none. */
  method AddInode(row: Row, paths: set<string>, held: set<string>,
                  redundant: seq<Row>, inUse: seq<Row>, tempOnly: seq<Row>, ghost temp: string)
    returns (redundant': seq<Row>, inUse': seq<Row>, tempOnly': seq<Row>)
    requires row == RowOf(row.key, paths, temp)
    ensures redundant' == Grown(redundant, row.key, paths, temp, held, Redundant)
    ensures inUse' == Grown(inUse, row.key, paths, temp, held, InUse)
    ensures tempOnly' == Grown(tempOnly, row.key, paths, temp, held, TempOnly)
  {
    redundant', inUse', tempOnly' := redundant, inUse, tempOnly;
    NoLibrary(paths, temp);
    if row.tempPaths == {} { return; }
    if row.libPaths == {} {
      tempOnly' := tempOnly + [row];
    } else if Held(paths, held) {
      inUse' := inUse + [row];
    } else {
      redundant' := redundant + [row];
    }
  }

  method Classify(inodes: map<Key, set<string>>, temp: string, held: set<string>)
    returns (redundant: seq<Row>, inUse: seq<Row>, tempOnly: seq<Row>)
    ensures Lists(redundant, inodes, temp, held, Redundant)
    ensures Lists(inUse, inodes, temp, held, InUse)
    ensures Lists(tempOnly, inodes, temp, held, TempOnly)
  {
    redundant, inUse, tempOnly := [], [], [];
    var todo := inodes.Keys;
    ghost var seen: map<Key, set<string>> := map[];
    while todo != {}
      invariant todo <= inodes.Keys && seen.Keys == inodes.Keys - todo
      invariant forall k :: k in seen ==> seen[k] == inodes[k]
      invariant Lists(redundant, seen, temp, held, Redundant)
      invariant Lists(inUse, seen, temp, held, InUse)
      invariant Lists(tempOnly, seen, temp, held, TempOnly)
    {
      var key :| key in todo;
      var paths := inodes[key];
      ListsGrow(redundant, seen, temp, held, Redundant, key, paths);
      ListsGrow(inUse, seen, temp, held, InUse, key, paths);
      ListsGrow(tempOnly, seen, temp, held, TempOnly, key, paths);
      redundant, inUse, tempOnly := AddInode(RowOf(key, paths, temp), paths, held, redundant, inUse, tempOnly, temp);
      todo := todo - {key};
      seen := seen[key := paths];
    }
    assert seen == inodes;
  }

  // ----- batches -----------------------------------------------------------------------------------------

  function KeysOf(rows: seq<Row>): set<Key> {
    set row | row in rows :: row.key
  }

  function Unattempted(rows: seq<Row>, attempted: set<Key>): seq<Row> {
    if rows == [] then []
    else (if rows[0].key in attempted then [] else [rows[0]]) + Unattempted(rows[1..], attempted)
  }

  /** The first inodes of the list this run has not worked on. */
  function NextBatch(rows: seq<Row>, attempted: set<Key>, batch: nat): seq<Row> {
    var left := Unattempted(rows, attempted);
    if batch < |left| then left[..batch] else left
  }

  lemma {:induction false} UnattemptedRows(rows: seq<Row>, attempted: set<Key>)
    requires forall i, j :: 0 <= i < j < |rows| ==> rows[i].key != rows[j].key
    ensures var left := Unattempted(rows, attempted);
            && (forall i, j :: 0 <= i < j < |left| ==> left[i].key != left[j].key)
            && (forall row :: row in left <==> row in rows && row.key !in attempted)
  {
    if rows != [] {
      UnattemptedRows(rows[1..], attempted);
      assert rows == [rows[0]] + rows[1..];
      var rest := Unattempted(rows[1..], attempted);
      forall i | 0 <= i < |rest| ensures rest[i].key != rows[0].key {
        assert rest[i] in rest;
        var j :| 0 <= j < |rows[1..]| && rows[1..][j] == rest[i];
        assert rows[j + 1] == rest[i];
      }
    }
  }

  ghost predicate IsWork(row: Row, inodes: map<Key, set<string>>, temp: string, held: set<string>) {
    && row.key in inodes
    && ClassOf(inodes[row.key], temp, held) == Redundant
    && row == RowOf(row.key, inodes[row.key], temp)
    && (forall p :: p in row.tempPaths ==> Under(p, temp))
    && (forall p :: p in row.libPaths ==> !Under(p, temp))
  }

  /** Different inodes, none of them worked on before, each split into temp and library names. */
  ghost predicate IsBatch(rows: seq<Row>, before: set<Key>, temp: string) {
    && (forall i, j :: 0 <= i < j < |rows| ==> rows[i].key != rows[j].key)
    && (forall i :: 0 <= i < |rows| ==>
          rows[i].key !in before
          && (forall p :: p in rows[i].tempPaths ==> Under(p, temp))
          && (forall p :: p in rows[i].libPaths ==> !Under(p, temp)))
  }

  /** Inodes that were redundant when the run began, as they looked then. */
  ghost predicate OfStart(rows: seq<Row>, start: Names, root: string, temp: string, held: set<string>,
                          before: set<Key>)
  {
    forall i :: 0 <= i < |rows| ==>
      && rows[i].libPaths != {}
      && rows[i] == RowOf(rows[i].key, Paths(start, root, rows[i].key), temp)
      && rows[i].key in RedundantKeys(start, root, temp, held) - before
  }

  lemma BatchIsFromList(rows: seq<Row>, attempted: set<Key>, batch: nat,
                        inodes: map<Key, set<string>>, temp: string, held: set<string>)
    requires Lists(rows, inodes, temp, held, Redundant)
    ensures IsBatch(NextBatch(rows, attempted, batch), attempted, temp)
    ensures forall i :: 0 <= i < |NextBatch(rows, attempted, batch)| ==>
              IsWork(NextBatch(rows, attempted, batch)[i], inodes, temp, held)
    ensures batch >= 1 && NextBatch(rows, attempted, batch) == [] ==>
              forall k :: k in inodes && ClassOf(inodes[k], temp, held) == Redundant ==> k in attempted
  {
    UnattemptedRows(rows, attempted);
    var left, next := Unattempted(rows, attempted), NextBatch(rows, attempted, batch);
    forall i | 0 <= i < |next| ensures IsWork(next[i], inodes, temp, held) && next[i].key !in attempted {
      assert next[i] == left[i] && left[i] in left;
    }
    if batch >= 1 && next == [] {
      forall k | k in inodes && ClassOf(inodes[k], temp, held) == Redundant ensures k in attempted {
        assert HasRow(rows, k);
        var i :| 0 <= i < |rows| && rows[i].key == k;
        assert rows[i] in rows && rows[i] !in left;
      }
    }
  }

  lemma BatchIsSplit(rows: seq<Row>, attempted: set<Key>, batch: nat,
                     inodes: map<Key, set<string>>, temp: string, held: set<string>)
    requires Lists(rows, inodes, temp, held, Redundant)
    ensures IsBatch(NextBatch(rows, attempted, batch), attempted, temp)
  {
    BatchIsFromList(rows, attempted, batch, inodes, temp, held);
  }

  /** The names of a row are all there and all of its inode. */
  ghost predicate Linked(names: Names, row: Row) {
    && row.libPaths != {}
    && row.tempPaths !! row.libPaths
    && forall p :: p in row.tempPaths + row.libPaths ==> p in names && names[p] == Node(row.key, true)
  }

  lemma {:induction false} SubsetCount<T>(a: set<T>, b: set<T>)
    requires a <= b
    ensures |a| <= |b|
  {
    if a != {} {
      var x :| x in a;
      SubsetCount(a - {x}, b - {x});
    }
  }

  lemma TwoLinks(names: Names, row: Row, path: string)
    requires row.libPaths != {} && path !in row.libPaths
    requires path in names && names[path] == Node(row.key, true)
    requires forall p :: p in row.libPaths ==> p in names && names[p] == Node(row.key, true)
    ensures forall p :: p in row.libPaths ==> StillKeeps(names, row.key, p)
  {
    var links := set p | p in names && names[p].key == row.key;
    forall p | p in row.libPaths ensures StillKeeps(names, row.key, p) {
      assert {path, p} <= links;
      SubsetCount({path, p}, links);
    }
  }

  lemma WalkedHas(names: Names, root: string, k: Key)
    ensures k in Walked(names, root) <==> Paths(names, root, k) != {}
  {
    if Paths(names, root, k) != {} {
      var p :| p in Paths(names, root, k);
      assert p in names && names[p].regular && Under(p, root);
    }
    if k in Walked(names, root) {
      var p :| p in names && names[p].regular && Under(p, root) && names[p].key == k;
      assert p in Paths(names, root, k);
    }
  }

  /** What is left after the temp names of some redundant inodes are gone: those inodes have no
      temp name, and every other inode looks as it did. */
  lemma WorkLeft(names: Names, root: string, temp: string, held: set<string>, attempted: set<Key>)
    requires attempted <= RedundantKeys(names, root, temp, held)
    ensures var now := names - NamesOf(names, root, temp, attempted);
            && RedundantKeys(now, root, temp, held) == RedundantKeys(names, root, temp, held) - attempted
            && (forall k :: k !in attempted ==> Paths(now, root, k) == Paths(names, root, k))
            && (forall k :: k in Walked(now, root) ==> Walked(now, root)[k] == Paths(now, root, k))
  {
    var now := names - NamesOf(names, root, temp, attempted);
    forall k
      ensures k !in attempted ==> Paths(now, root, k) == Paths(names, root, k)
      ensures k in attempted ==> InTemp(Paths(now, root, k), temp) == {}
    {}
    forall k ensures k in RedundantKeys(now, root, temp, held)
                     <==> k in RedundantKeys(names, root, temp, held) - attempted
    {
      WalkedHas(now, root, k);
      WalkedHas(names, root, k);
    }
  }

  lemma RedundantHasLibrary(paths: set<string>, temp: string, held: set<string>)
    requires ClassOf(paths, temp, held) == Redundant
    ensures paths - InTemp(paths, temp) != {}
  {
    NoLibrary(paths, temp);
  }

  /** A batch on a quiet filesystem: redundant inodes of the start, looking as they did then. */
  lemma QuietRound(start: Names, now: Names, root: string, temp: string, held: set<string>,
                   attempted: set<Key>, redundant: seq<Row>, batch: nat)
    requires attempted <= RedundantKeys(start, root, temp, held)
    requires now == WithoutNamesOf(start, root, temp, attempted)
    requires Lists(redundant, Walked(now, root), temp, held, Redundant)
    ensures OfStart(NextBatch(redundant, attempted, batch), start, root, temp, held, attempted)
    ensures batch >= 1 && NextBatch(redundant, attempted, batch) == [] ==>
              attempted == RedundantKeys(start, root, temp, held)
  {
    var rows := NextBatch(redundant, attempted, batch);
    WorkLeft(start, root, temp, held, attempted);
    BatchIsFromList(redundant, attempted, batch, Walked(now, root), temp, held);
    forall i | 0 <= i < |rows|
      ensures rows[i].libPaths != {}
      ensures rows[i] == RowOf(rows[i].key, Paths(start, root, rows[i].key), temp)
      ensures rows[i].key in RedundantKeys(start, root, temp, held) - attempted
    {
      assert IsWork(rows[i], Walked(now, root), temp, held);
      RedundantHasLibrary(Walked(now, root)[rows[i].key], temp, held);
    }
    if batch >= 1 && rows == [] {
      forall k | k in RedundantKeys(start, root, temp, held) ensures k in attempted {
        assert k !in attempted ==> k in RedundantKeys(now, root, temp, held);
      }
    }
  }

  lemma RowWork(names: Names, root: string, temp: string, attempted: set<Key>, row: Row)
    requires row.key !in attempted && row.libPaths != {}
    requires row == RowOf(row.key, Paths(names, root, row.key), temp)
    ensures var now := names - NamesOf(names, root, temp, attempted);
            && Linked(now, row)
            && now - row.tempPaths == names - NamesOf(names, root, temp, attempted + {row.key})
  {
    assert NamesOf(names, root, temp, attempted + {row.key})
        == NamesOf(names, root, temp, attempted) + row.tempPaths;
  }

  lemma ProperSubsetCount<T>(a: set<T>, b: set<T>, x: T)
    requires a <= b && x in b && x !in a
    ensures |a| < |b|
  {
    SubsetCount(a, b - {x});
  }

  lemma Progress(start: Names, root: string, temp: string, held: set<string>, before: set<Key>, rows: seq<Row>)
    requires before <= RedundantKeys(start, root, temp, held) && rows != []
    requires OfStart(rows, start, root, temp, held, before)
    ensures before + KeysOf(rows) <= RedundantKeys(start, root, temp, held)
    ensures |RedundantKeys(start, root, temp, held) - (before + KeysOf(rows))|
          < |RedundantKeys(start, root, temp, held) - before|
  {
    var all := RedundantKeys(start, root, temp, held);
    assert rows[0] in rows && rows[0].key in KeysOf(rows);
    ProperSubsetCount(all - (before + KeysOf(rows)), all - before, rows[0].key);
  }

  // ----- the code ----------------------------------------------------------------------------------------

  class Cleaner {
    const root: string
    const temp: string
    const quiet: bool  // do other programs leave the filesystem alone?
    var names: Names
    ghost var removals: seq<Removal>

    constructor (root: string, temp: string, quiet: bool, names: Names)
      ensures this.root == root && this.temp == temp && this.quiet == quiet && this.names == names
      ensures removals == []
    {
      this.root, this.temp, this.quiet, this.names := root, temp, quiet, names;
      removals := [];
    }

    method Others()
      modifies this`names
      ensures quiet ==> names == old(names)
    {
      if !quiet { names := *; }
    }

    /** A library name that still points at this inode, looked at now. */
    method Counterpart(key: Key, libPaths: set<string>) returns (keep: Option<string>)
      ensures keep.Some? ==> keep.value in libPaths && StillKeeps(names, key, keep.value)
      ensures keep.None? ==> forall p :: p in libPaths ==> !StillKeeps(names, key, p)
    {
      var todo := libPaths;
      while todo != {}
        invariant todo <= libPaths
        invariant forall p :: p in libPaths - todo ==> !StillKeeps(names, key, p)
      {
        var path :| path in todo;
        if path in names && names[path] == Node(key, true) && Links(names, key) > 1 {
          return Some(path);
        }
        todo := todo - {path};
      }
      keep := None;
    }

    /** `statWorks` is false when the name cannot be looked at, other than for not being there. */
    method UnlinkTempName(key: Key, path: string, statWorks: bool) returns (gone: bool)
      modifies this`names, this`removals
      ensures statWorks && path in old(names) && old(names)[path] == Node(key, true) ==>
                names == old(names) - {path}
                && removals == old(removals) + [Removal(path, key, old(names), names)]
      ensures !(statWorks && path in old(names) && old(names)[path] == Node(key, true)) ==>
                names == old(names) && removals == old(removals)
      ensures gone <==> statWorks && path !in names
    {
      if !statWorks { return false; }
      if path !in names { return true; }
      if names[path] != Node(key, true) { return false; }
      ghost var before := names;
      names := names - {path};
      removals := removals + [Removal(path, key, before, names)];
      gone := true;
    }

    /** The temp names of one inode, each behind its own look at the library. */
    method ProcessRow(row: Row)
      requires AllHarmless(removals, temp)
      requires forall p :: p in row.tempPaths ==> Under(p, temp)
      requires forall p :: p in row.libPaths ==> !Under(p, temp)
      modifies this`names, this`removals
      ensures AllHarmless(removals, temp)
      ensures quiet && Linked(old(names), row) ==> names == old(names) - row.tempPaths
    {
      var todo := row.tempPaths;
      while todo != {}
        invariant todo <= row.tempPaths
        invariant AllHarmless(removals, temp)
        invariant quiet && Linked(old(names), row) ==> names == old(names) - (row.tempPaths - todo)
      {
        var path :| path in todo;
        Others();
        if quiet && Linked(old(names), row) { TwoLinks(names, row, path); }
        var keep := Counterpart(row.key, row.libPaths);
        if keep.None? { break; }
        assert keep.value != path;
        var statWorks: bool := *;
        var gone := UnlinkTempName(row.key, path, statWorks || quiet);
        todo := todo - {path};
        assert quiet && Linked(old(names), row) ==> names == old(names) - (row.tempPaths - todo);
      }
    }

    /** One batch. `start` is the filesystem the run began on, when it is quiet. */
    method ProcessBatch(rows: seq<Row>, before: set<Key>, ghost start: Names, ghost held: set<string>)
      returns (attempted: set<Key>)
      requires AllHarmless(removals, temp)
      requires IsBatch(rows, before, temp)
      requires quiet ==> names == WithoutNamesOf(start, root, temp, before)
      requires quiet ==> OfStart(rows, start, root, temp, held, before)
      modifies this`names, this`removals
      ensures AllHarmless(removals, temp)
      ensures attempted == before + KeysOf(rows)
      ensures quiet ==> names == WithoutNamesOf(start, root, temp, attempted)
    {
      attempted := before;
      for n := 0 to |rows|
        invariant AllHarmless(removals, temp)
        invariant attempted == before + KeysOf(rows[..n])
        invariant quiet ==> names == WithoutNamesOf(start, root, temp, attempted)
      {
        var row := rows[n];
        assert rows[..n + 1] == rows[..n] + [row];
        if quiet { RowWork(start, root, temp, attempted, row); }
        attempted := attempted + {row.key};
        ProcessRow(row);
      }
      assert rows[..|rows|] == rows;
    }

    /** The batch loop. On a quiet filesystem it ends by itself; otherwise `rounds` is how many
        batches are watched, and the torrents in use may change before each. */
    method Clean(inUse: set<string>, batch: nat, rounds: nat)
      requires AllHarmless(removals, temp)
      modifies this`names, this`removals
      ensures AllHarmless(removals, temp)
      ensures !EndsInSlash(temp) ==> forall i :: 0 <= i < |removals| ==>
                removals[i].path == temp || temp + "/" <= removals[i].path
      ensures quiet && batch >= 1 ==> names == old(names) - RedundantNames(old(names), root, temp, inUse)
      ensures quiet && !EndsInSlash(temp) ==> forall p :: p in old(names) && p != temp && !(temp + "/" <= p) ==>
                p in names && names[p] == old(names)[p]
    {
      NotEndingIsWhole(temp);
      var held := inUse;
      var attempted: set<Key> := {};
      var left := rounds;
      ghost var all := RedundantKeys(names, root, temp, inUse);
      NothingWorkedOn(names, root, temp);
      while quiet || left > 0
        invariant AllHarmless(removals, temp)
        invariant quiet ==> held == inUse && attempted <= all
        invariant quiet ==> names == WithoutNamesOf(old(names), root, temp, attempted)
        decreases if quiet then |all - attempted| else left
      {
        Others();
        if !quiet { held := *; }
        var done;
        done, attempted := Round(held, attempted, batch, old(names));
        if done { break; }
        left := if left > 0 then left - 1 else 0;
      }
    }

    /** A fresh walk, and the work on the first inodes of its redundant list not worked on yet. */
    method Round(held: set<string>, before: set<Key>, batch: nat, ghost start: Names)
      returns (done: bool, attempted: set<Key>)
      requires AllHarmless(removals, temp)
      requires quiet ==> before <= RedundantKeys(start, root, temp, held)
      requires quiet ==> names == WithoutNamesOf(start, root, temp, before)
      modifies this`names, this`removals
      ensures AllHarmless(removals, temp)
      ensures quiet ==> attempted <= RedundantKeys(start, root, temp, held)
      ensures quiet ==> names == WithoutNamesOf(start, root, temp, attempted)
      ensures quiet && done && batch >= 1 ==> attempted == RedundantKeys(start, root, temp, held)
      ensures quiet && !done ==>
                |RedundantKeys(start, root, temp, held) - attempted| < |RedundantKeys(start, root, temp, held) - before|
    {
      var redundant, heldRows, onlyRows := Classify(Walked(names, root), temp, held);
      var rows := NextBatch(redundant, before, batch);
      BatchIsSplit(redundant, before, batch, Walked(names, root), temp, held);
      if quiet { QuietRound(start, names, root, temp, held, before, redundant, batch); }
      if rows == [] { return true, before; }
      attempted := ProcessBatch(rows, before, start, held);
      if quiet { Progress(start, root, temp, held, before, rows); }
      done := false;
    }
  }

  // ----- what is left ------------------------------------------------------------------------------------

  /** Does a path a torrent holds cover a name of this inode under the root? */
  ghost predicate InUseBy(names: Names, root: string, node: Node, held: set<string>) {
    exists q, h :: q in names && names[q] == node && Under(q, root) && h in held && Under(q, h)
  }

  /** Has this inode a name in the library, under the root and outside temp? */
  ghost predicate InLibrary(names: Names, root: string, temp: string, node: Node) {
    exists q :: q in names && names[q] == node && Under(q, root) && !Under(q, temp)
  }

  lemma HeldOfPaths(names: Names, root: string, node: Node, held: set<string>)
    requires node.regular
    ensures Held(Paths(names, root, node.key), held) <==> InUseBy(names, root, node, held)
  {
    var paths := Paths(names, root, node.key);
    if InUseBy(names, root, node, held) {
      var q, h :| q in names && names[q] == node && Under(q, root) && h in held && Under(q, h);
      assert q in paths;
    }
    if Held(paths, held) {
      var q :| q in paths && exists h :: h in held && Under(q, h);
      assert q in names && names[q] == node && Under(q, root);
    }
  }

  lemma LibraryOfPaths(names: Names, root: string, temp: string, node: Node)
    requires node.regular
    ensures var paths := Paths(names, root, node.key);
            InLibrary(names, root, temp, node) <==> paths != InTemp(paths, temp)
  {
    var paths := Paths(names, root, node.key);
    if InLibrary(names, root, temp, node) {
      var q :| q in names && names[q] == node && Under(q, root) && !Under(q, temp);
      assert q in paths && q !in InTemp(paths, temp);
    } else {
      assert forall q :: q in paths ==> q in names && names[q] == node && Under(q, root);
    }
  }

  lemma RemovedExactly(names: Names, root: string, temp: string, held: set<string>, p: string)
    requires p in names
    ensures p in RedundantNames(names, root, temp, held)
            <==> && names[p].regular && Under(p, root) && Under(p, temp)
                 && InLibrary(names, root, temp, names[p])
                 && !InUseBy(names, root, names[p], held)
  {
    if names[p].regular && Under(p, root) && Under(p, temp) {
      var paths := Paths(names, root, names[p].key);
      WalkedHas(names, root, names[p].key);
      NoLibrary(paths, temp);
      assert names[p] == Node(names[p].key, true);
      assert p in InTemp(paths, temp);
      LibraryOfPaths(names, root, temp, names[p]);
      HeldOfPaths(names, root, names[p], held);
    }
  }

  /** On a quiet filesystem: afterwards nothing redundant is left, and every name outside temp, of
      an inode in use, or of an inode with no library name is where it was. */
  lemma CleanedIsDone(names: Names, root: string, temp: string, held: set<string>)
    ensures var now := names - RedundantNames(names, root, temp, held);
            && RedundantKeys(now, root, temp, held) == {}
            && (forall p :: p in names && !Under(p, temp) ==> p in now && now[p] == names[p])
            && (!EndsInSlash(temp) ==> forall p :: p in names && p != temp && !(temp + "/" <= p) ==>
                  p in now && now[p] == names[p])
            && (forall p :: p in names ==>
                  (p !in now <==> && names[p].regular && Under(p, root) && Under(p, temp)
                                  && InLibrary(names, root, temp, names[p])
                                  && !InUseBy(names, root, names[p], held)))
            && (forall p :: p in names && ClassOf(Paths(names, root, names[p].key), temp, held) != Redundant ==>
                  p in now && now[p] == names[p])
            && (forall p :: p in names && names[p].regular && Under(p, root) ==>
                  exists q :: q in now && now[q] == names[p])
  {
    WorkLeft(names, root, temp, held, RedundantKeys(names, root, temp, held));
    NotEndingIsWhole(temp);
    var now := names - RedundantNames(names, root, temp, held);
    forall p | p in names
      ensures p !in now <==> && names[p].regular && Under(p, root) && Under(p, temp)
                             && InLibrary(names, root, temp, names[p])
                             && !InUseBy(names, root, names[p], held)
    {
      RemovedExactly(names, root, temp, held, p);
    }
    forall p | p in names && names[p].regular && Under(p, root) ensures exists q :: q in now && now[q] == names[p] {
      var k := names[p].key;
      if p !in now {
        RedundantHasLibrary(Paths(names, root, k), temp, held);
        var q :| q in Paths(names, root, k) - InTemp(Paths(names, root, k), temp);
        assert q in now && now[q] == names[p];
      } else {
        assert now[p] == names[p];
      }
    }
  }
}
