/** Outlier ejection: which measured servers the agents' verdicts remove from the ranking.

    The code merges verdict files newest-first per producer and server, merges again per server,
    sorts, and cuts a prefix. `Ejected` says the same thing without any of those stages. */
module Ejections {
  import opened Wrappers
  import opened Text

  /** One complete row of a ranking document. */
  datatype Row = Row(name: string, entryIp: string, lossPct: real, rttMs: real,
                     load: int, bwMax: int, headroom: int)

  /** A parsed and accepted verdict document. */
  datatype Verdict = Verdict(producer: string, server: string, observed: real)

  /** What reading one verdict file yields. */
  datatype FileRead = Unusable | Stale | Usable(verdict: Verdict)

  /** The configured maximum ejection fraction, a float. */
  datatype Fraction = NotFinite | Finite(value: real)

  function Key(row: Row): string { Lower(row.name) }

  function Names(rows: seq<Row>): set<string> {
    set row | row in rows :: Key(row)
  }

  function Server(v: Verdict): string { Lower(v.server) }

  function Producer(v: Verdict): string { Lower(v.producer) }

  ghost predicate UniqueNames(rows: seq<Row>) {
    forall i, j :: 0 <= i < j < |rows| ==> Key(rows[i]) != Key(rows[j])
  }

  // ----- the one-stage meaning -----------------------------------------------------------------

  ghost predicate Accused(vs: seq<Verdict>, server: string) {
    exists v :: v in vs && Server(v) == server
  }

  /** The latest observation against a server, over all verdicts at once. */
  ghost predicate LatestIs(vs: seq<Verdict>, server: string, t: real) {
    && (exists v :: v in vs && Server(v) == server && v.observed == t)
    && (forall v :: v in vs && Server(v) == server ==> v.observed <= t)
  }

  lemma {:induction false} LatestExists(vs: seq<Verdict>, server: string)
    requires Accused(vs, server)
    ensures exists t :: LatestIs(vs, server, t)
  {
    var rest := vs[1..];
    assert vs == [vs[0]] + rest;
    if Accused(rest, server) {
      LatestExists(rest, server);
      var t :| LatestIs(rest, server, t);
      var w :| w in rest && Server(w) == server && w.observed == t;
      assert w in vs;
      assert LatestIs(vs, server,
        if Server(vs[0]) == server && vs[0].observed > t then vs[0].observed else t);
    } else {
      var v :| v in vs && Server(v) == server;
      assert v == vs[0];
      assert LatestIs(vs, server, v.observed);
    }
  }

  ghost function Latest(vs: seq<Verdict>, server: string): (t: real)
    requires Accused(vs, server)
    ensures LatestIs(vs, server, t)
  {
    LatestExists(vs, server);
    var t :| LatestIs(vs, server, t);
    t
  }

  ghost function Suspects(rows: seq<Row>, vs: seq<Verdict>): set<string> {
    set row | row in rows && Accused(vs, Key(row)) :: Key(row)
  }

  /** Does `a` come before `b` in the queue for ejection? */
  ghost predicate Precedes(vs: seq<Verdict>, a: string, b: string)
    requires Accused(vs, a) && Accused(vs, b)
  {
    || Latest(vs, a) > Latest(vs, b)
    || (Latest(vs, a) == Latest(vs, b) && a != b && AtMost(a, b))
  }

  ghost function Ahead(rows: seq<Row>, vs: seq<Verdict>, server: string): set<string>
    requires Accused(vs, server)
  {
    set a | a in Suspects(rows, vs) && Precedes(vs, a, server)
  }

  lemma LimitIsNatural(n: nat, f: real)
    requires 0.0 <= f
    ensures n as real * f >= 0.0
  {}

  function Limit(n: nat, fraction: Fraction): (limit: nat)
    requires n > 0
    ensures limit < n
  {
    var f := if fraction.Finite? then fraction.value else 0.0;
    var clamped := if f < 0.0 then 0.0 else if f > 1.0 then 1.0 else f;
    var share := (n as real * clamped).Floor;
    LimitIsNatural(n, clamped);
    if share < n - 1 then share else n - 1
  }

  /** A server is ejected when fewer than the limit of accused survivors precede it. */
  ghost predicate Ejected(rows: seq<Row>, vs: seq<Verdict>, fraction: Fraction, server: string)
    requires rows != []
  {
    server in Suspects(rows, vs) && |Ahead(rows, vs, server)| < Limit(|rows|, fraction)
  }

  ghost function Rejected(rows: seq<Row>, vs: seq<Verdict>, fraction: Fraction): set<string>
    requires rows != []
  {
    set k | k in Suspects(rows, vs) && Ejected(rows, vs, fraction, k)
  }

  function Without(rows: seq<Row>, rejected: set<string>): seq<Row> {
    if rows == [] then []
    else (if Key(rows[0]) in rejected then [] else [rows[0]]) + Without(rows[1..], rejected)
  }

  /** The servers a list of verdicts is against. */
  function Servers(vs: seq<Verdict>): set<string> {
    set v | v in vs :: Server(v)
  }

  ghost function Kept(rows: seq<Row>, vs: seq<Verdict>, fraction: Fraction): seq<Row> {
    if rows == [] then []
    else Without(rows, Rejected(rows, vs, fraction))
  }

  // ----- theorems about the meaning --------------------------------------------------------------

  /** Order and duplication of verdicts, and producers behind an older observation, do not matter. */
  lemma KeptDependsOnLatestOnly(rows: seq<Row>, vs: seq<Verdict>, ws: seq<Verdict>, fraction: Fraction)
    requires forall row :: row in rows ==> (Accused(vs, Key(row)) <==> Accused(ws, Key(row)))
    requires forall row :: row in rows && Accused(vs, Key(row)) ==> Latest(vs, Key(row)) == Latest(ws, Key(row))
    ensures Kept(rows, vs, fraction) == Kept(rows, ws, fraction)
  {
    if rows != [] {
      assert Suspects(rows, vs) == Suspects(rows, ws);
      forall k | k in Suspects(rows, vs)
        ensures Ejected(rows, vs, fraction, k) == Ejected(rows, ws, fraction, k)
      {
        assert Ahead(rows, vs, k) == Ahead(rows, ws, k);
      }
      assert Rejected(rows, vs, fraction) == Rejected(rows, ws, fraction);
    }
  }

  lemma KeptIgnoresOrderAndDuplicates(rows: seq<Row>, vs: seq<Verdict>, ws: seq<Verdict>, fraction: Fraction)
    requires forall v :: v in vs <==> v in ws
    ensures Kept(rows, vs, fraction) == Kept(rows, ws, fraction)
  {
    forall k | Accused(vs, k) || Accused(ws, k)
      ensures Accused(vs, k) && Accused(ws, k) && Latest(vs, k) == Latest(ws, k)
    {
      var v :| (v in vs || v in ws) && Server(v) == k;
      assert v in vs && v in ws;
      assert LatestIs(ws, k, Latest(vs, k));
    }
    KeptDependsOnLatestOnly(rows, vs, ws, fraction);
  }

  /** Only accused servers go, so with no verdict the whole base is kept. */
  lemma {:induction false} NothingRejected(rows: seq<Row>)
    ensures Without(rows, {}) == rows
  {
    if rows != [] { NothingRejected(rows[1..]); }
  }

  lemma NoVerdictKeepsEverything(rows: seq<Row>, fraction: Fraction)
    ensures Kept(rows, [], fraction) == rows
  {
    if rows != [] {
      assert Rejected(rows, [], fraction) == {} by {
        assert Suspects(rows, []) == {};
      }
      NothingRejected(rows);
    }
  }

  lemma {:induction false} WithoutIgnoresAbsent(rows: seq<Row>, rejected: set<string>, k: string)
    requires forall row :: row in rows ==> Key(row) != k
    ensures Without(rows, rejected) == Without(rows, rejected - {k})
  {
    if rows != [] {
      assert rows[0] in rows;
      assert forall row :: row in rows[1..] ==> row in rows;
      WithoutIgnoresAbsent(rows[1..], rejected, k);
    }
  }

  lemma FirstNameIsAlone(rows: seq<Row>)
    requires rows != [] && UniqueNames(rows)
    ensures UniqueNames(rows[1..])
    ensures forall row :: row in rows[1..] ==> Key(row) != Key(rows[0])
    ensures Names(rows) == {Key(rows[0])} + Names(rows[1..])
  {
    assert forall row :: row in rows <==> row == rows[0] || row in rows[1..];
  }

  lemma WithoutFirst(rows: seq<Row>, rejected: set<string>)
    requires rows != [] && UniqueNames(rows)
    ensures |Without(rows, rejected)|
         == (if Key(rows[0]) in rejected then 0 else 1) + |Without(rows[1..], rejected - {Key(rows[0])})|
  {
    FirstNameIsAlone(rows);
    WithoutIgnoresAbsent(rows[1..], rejected, Key(rows[0]));
  }

  lemma OneNameLess(names: set<string>, name: string)
    ensures |names| == |names - {name}| + if name in names then 1 else 0
  {
    assert names == names - {name} + if name in names then {name} else {};
  }

  lemma {:induction false} WithoutCounts(rows: seq<Row>, rejected: set<string>)
    requires UniqueNames(rows)
    requires rejected <= Names(rows)
    ensures |Without(rows, rejected)| + |rejected| == |rows|
  {
    if rows == [] {
      assert rejected == {};
    } else {
      FirstNameIsAlone(rows);
      WithoutCounts(rows[1..], rejected - {Key(rows[0])});
      WithoutFirst(rows, rejected);
      OneNameLess(rejected, Key(rows[0]));
    }
  }

  // ----- order-preserving subsets ------------------------------------------------------------------

  ghost predicate Embeds(at: seq<nat>, part: seq<Row>, whole: seq<Row>) {
    && |at| == |part|
    && (forall i :: 0 <= i < |at| ==> at[i] < |whole| && part[i] == whole[at[i]])
    && (forall i, j :: 0 <= i < j < |at| ==> at[i] < at[j])
  }

  /** Could `part` be `whole` with rows removed and nothing else done to it? */
  ghost predicate RankedSubset(part: seq<Row>, whole: seq<Row>) {
    UniqueNames(whole) && exists at :: Embeds(at, part, whole)
  }

  lemma ShiftedEmbeds(at: seq<nat>, part: seq<Row>, rows: seq<Row>) returns (shifted: seq<nat>)
    requires rows != [] && Embeds(at, part, rows[1..])
    ensures Embeds(shifted, part, rows)
    ensures forall i :: 0 <= i < |shifted| ==> shifted[i] > 0
  {
    shifted := seq(|at|, i requires 0 <= i < |at| => at[i] + 1);
  }

  lemma FirstEmbeds(at: seq<nat>, part: seq<Row>, rows: seq<Row>)
    requires rows != [] && Embeds(at, part, rows)
    requires forall i :: 0 <= i < |at| ==> at[i] > 0
    ensures Embeds([0] + at, [rows[0]] + part, rows)
  {
    var more := [0] + at;
    assert forall i :: 0 < i < |more| ==> more[i] == at[i - 1];
  }

  lemma {:induction false} WithoutEmbeds(rows: seq<Row>, rejected: set<string>) returns (at: seq<nat>)
    ensures Embeds(at, Without(rows, rejected), rows)
  {
    if rows == [] {
      at := [];
    } else {
      var part := Without(rows[1..], rejected);
      at := WithoutEmbeds(rows[1..], rejected);
      at := ShiftedEmbeds(at, part, rows);
      if Key(rows[0]) in rejected {
        assert [] + part == part;
      } else {
        FirstEmbeds(at, part, rows);
        at := [0] + at;
      }
    }
  }

  lemma SubsetIsPresent(part: seq<Row>, whole: seq<Row>)
    requires RankedSubset(part, whole)
    ensures forall row :: row in part ==> row in whole
  {
    var at :| Embeds(at, part, whole);
    forall row | row in part ensures row in whole {
      var i :| 0 <= i < |part| && part[i] == row;
      assert whole[at[i]] == row;
    }
  }

  lemma MissingRowIsNoSubset(part: seq<Row>, whole: seq<Row>, row: Row)
    requires row in part && row !in whole
    ensures !RankedSubset(part, whole)
  {
    if RankedSubset(part, whole) { SubsetIsPresent(part, whole); }
  }

  lemma KeptIsRankedSubset(rows: seq<Row>, vs: seq<Verdict>, fraction: Fraction)
    requires UniqueNames(rows)
    ensures RankedSubset(Kept(rows, vs, fraction), rows)
  {
    if rows == [] {
      assert Embeds([], [], rows);
    } else {
      var at := WithoutEmbeds(rows, Rejected(rows, vs, fraction));
    }
  }

  /** Names are unique, so every embedding places the first n rows where `at` does. */
  lemma PlacesAreForced(part: seq<Row>, whole: seq<Row>, n: nat, at: seq<nat>, other: seq<nat>)
    requires UniqueNames(whole) && n < |part| && Embeds(at, part[..n], whole) && Embeds(other, part, whole)
    ensures part[n] == whole[other[n]] && (n > 0 ==> at[n - 1] < other[n])
  {
    if n > 0 {
      assert whole[other[n - 1]] == part[n - 1] == part[..n][n - 1] == whole[at[n - 1]];
    }
  }

  /** If the next row occurs only at or before the last place taken, nothing embeds. */
  lemma NoPlaceLeft(part: seq<Row>, whole: seq<Row>, n: nat, at: seq<nat>)
    requires UniqueNames(whole) && n < |part| && Embeds(at, part[..n], whole)
    requires forall j :: 0 <= j < |whole| && whole[j] == part[n] ==> n > 0 && j <= at[n - 1]
    ensures !RankedSubset(part, whole)
  {
    forall other | Embeds(other, part, whole) ensures false {
      PlacesAreForced(part, whole, n, at, other);
    }
  }

  ghost predicate PositionsOf(positions: map<string, (nat, Row)>, rows: seq<Row>) {
    && (forall i :: 0 <= i < |rows| ==> Key(rows[i]) in positions && positions[Key(rows[i])] == (i, rows[i]))
    && (forall k :: k in positions ==>
          positions[k].0 < |rows| && positions[k].1 == rows[positions[k].0] && Key(positions[k].1) == k)
  }

  lemma OnePositionMore(positions: map<string, (nat, Row)>, rows: seq<Row>, row: Row)
    requires UniqueNames(rows) && PositionsOf(positions, rows)
    ensures UniqueNames(rows + [row]) <==> Key(row) !in positions
    ensures Key(row) !in positions ==> PositionsOf(positions[Key(row) := (|rows|, row)], rows + [row])
  {
    var more := rows + [row];
    if Key(row) in positions {
      assert Key(more[positions[Key(row)].0]) == Key(more[|rows|]);
    }
  }

  lemma NotUniqueFurther(rows: seq<Row>, n: nat)
    requires n <= |rows| && !UniqueNames(rows[..n])
    ensures !UniqueNames(rows)
  {
    var i, j :| 0 <= i < j < n && Key(rows[..n][i]) == Key(rows[..n][j]);
    assert Key(rows[i]) == Key(rows[j]);
  }

  method Positions(baseRows: seq<Row>) returns (r: Option<map<string, (nat, Row)>>)
    ensures r.Some? <==> UniqueNames(baseRows)
    ensures r.Some? ==> PositionsOf(r.value, baseRows)
  {
    var positions: map<string, (nat, Row)> := map[];
    for index := 0 to |baseRows|
      invariant UniqueNames(baseRows[..index]) && PositionsOf(positions, baseRows[..index])
    {
      var row := baseRows[index];
      assert baseRows[..index + 1] == baseRows[..index] + [row];
      OnePositionMore(positions, baseRows[..index], row);
      if Key(row) in positions {
        NotUniqueFurther(baseRows, index + 1);
        return None;
      }
      positions := positions[Key(row) := (index, row)];
    }
    assert baseRows[..|baseRows|] == baseRows;
    r := Some(positions);
  }

  lemma OnlyPlace(positions: map<string, (nat, Row)>, rows: seq<Row>, row: Row)
    requires PositionsOf(positions, rows)
    ensures forall j :: 0 <= j < |rows| && rows[j] == row ==>
              Key(row) in positions && positions[Key(row)] == (j, row)
  {}

  lemma OnePlaceMore(at: seq<nat>, part: seq<Row>, whole: seq<Row>, place: nat)
    requires Embeds(at, part, whole) && place < |whole| && (at != [] ==> at[|at| - 1] < place)
    ensures Embeds(at + [place], part + [whole[place]], whole)
  {}

  method IsRankedSubset(publicRows: seq<Row>, baseRows: seq<Row>) returns (r: bool)
    ensures r <==> RankedSubset(publicRows, baseRows)
  {
    var found := Positions(baseRows);
    if found.None? { return false; }
    var positions := found.value;
    var seen: int := -1;
    ghost var at: seq<nat> := [];
    for n := 0 to |publicRows|
      invariant Embeds(at, publicRows[..n], baseRows)
      invariant seen == if at == [] then -1 else at[|at| - 1]
    {
      var row := publicRows[n];
      if Key(row) !in positions || positions[Key(row)].0 <= seen || positions[Key(row)].1 != row {
        OnlyPlace(positions, baseRows, row);
        NoPlaceLeft(publicRows, baseRows, n, at);
        return false;
      }
      OnePlaceMore(at, publicRows[..n], baseRows, positions[Key(row)].0);
      seen := positions[Key(row)].0;
      at := at + [seen];
      assert publicRows[..n + 1] == publicRows[..n] + [row];
    }
    assert publicRows[..|publicRows|] == publicRows;
    assert Embeds(at, publicRows, baseRows);
    r := true;
  }

  // ----- sorting ---------------------------------------------------------------------------------

  predicate NewestFirst(a: Verdict, b: Verdict) {
    a.observed > b.observed || (a.observed == b.observed && AtMost(Server(a), Server(b)))
  }

  predicate NewestFirstByProducer(a: Verdict, b: Verdict) {
    || a.observed > b.observed
    || (a.observed == b.observed
        && (if Producer(a) == Producer(b) then AtMost(Server(a), Server(b)) else AtMost(Producer(a), Producer(b))))
  }

  ghost predicate TotalPreorder(le: (Verdict, Verdict) -> bool) {
    && (forall a, b :: le(a, b) || le(b, a))
    && (forall a, b, c :: le(a, b) && le(b, c) ==> le(a, c))
  }

  lemma OrdersAreTotal()
    ensures TotalPreorder(NewestFirst) && TotalPreorder(NewestFirstByProducer)
  {
    forall a, b
      ensures NewestFirst(a, b) || NewestFirst(b, a)
      ensures NewestFirstByProducer(a, b) || NewestFirstByProducer(b, a)
    {
      AtMostIsTotal(Server(a), Server(b));
      AtMostIsTotal(Producer(a), Producer(b));
    }
    forall a, b, c | NewestFirst(a, b) && NewestFirst(b, c) ensures NewestFirst(a, c) {
      if a.observed == c.observed { AtMostIsTransitive(Server(a), Server(b), Server(c)); }
    }
    forall a, b, c | NewestFirstByProducer(a, b) && NewestFirstByProducer(b, c)
      ensures NewestFirstByProducer(a, c)
    {
      if a.observed == c.observed {
        if Producer(a) == Producer(b) == Producer(c) {
          AtMostIsTransitive(Server(a), Server(b), Server(c));
        } else {
          if Producer(a) == Producer(c) { AtMostIsAntisymmetric(Producer(a), Producer(b)); }
          if Producer(a) != Producer(b) && Producer(b) != Producer(c) {
            AtMostIsTransitive(Producer(a), Producer(b), Producer(c));
          }
        }
      }
    }
  }

  ghost predicate Sorted(vs: seq<Verdict>, le: (Verdict, Verdict) -> bool) {
    forall i, j :: 0 <= i < j < |vs| ==> le(vs[i], vs[j])
  }

  /** Stable insertion, from the right. */
  function Insert(vs: seq<Verdict>, v: Verdict, le: (Verdict, Verdict) -> bool): seq<Verdict> {
    if vs == [] || le(vs[|vs| - 1], v) then vs + [v]
    else Insert(vs[..|vs| - 1], v, le) + [vs[|vs| - 1]]
  }

  function Sort(vs: seq<Verdict>, le: (Verdict, Verdict) -> bool): seq<Verdict> {
    if vs == [] then [] else Insert(Sort(vs[..|vs| - 1], le), vs[|vs| - 1], le)
  }

  lemma {:induction false} InsertPermutes(vs: seq<Verdict>, v: Verdict, le: (Verdict, Verdict) -> bool)
    ensures multiset(Insert(vs, v, le)) == multiset(vs) + multiset{v}
  {
    if vs != [] && !le(vs[|vs| - 1], v) {
      InsertPermutes(vs[..|vs| - 1], v, le);
      assert vs == vs[..|vs| - 1] + [vs[|vs| - 1]];
    }
  }

  lemma {:induction false} InsertKeepsSorted(vs: seq<Verdict>, v: Verdict, le: (Verdict, Verdict) -> bool)
    requires TotalPreorder(le) && Sorted(vs, le)
    ensures Sorted(Insert(vs, v, le), le)
  {
    if vs != [] && !le(vs[|vs| - 1], v) {
      var front, last := vs[..|vs| - 1], vs[|vs| - 1];
      InsertKeepsSorted(front, v, le);
      InsertPermutes(front, v, le);
      var r := Insert(front, v, le);
      forall i | 0 <= i < |r| ensures le(r[i], last) {
        assert r[i] in multiset(r);
        assert r[i] == v || r[i] in front;
      }
    }
  }

  lemma {:induction false} SortPermutes(vs: seq<Verdict>, le: (Verdict, Verdict) -> bool)
    ensures multiset(Sort(vs, le)) == multiset(vs)
  {
    if vs != [] {
      SortPermutes(vs[..|vs| - 1], le);
      InsertPermutes(Sort(vs[..|vs| - 1], le), vs[|vs| - 1], le);
      assert vs == vs[..|vs| - 1] + [vs[|vs| - 1]];
    }
  }

  lemma {:induction false} SortSorts(vs: seq<Verdict>, le: (Verdict, Verdict) -> bool)
    requires TotalPreorder(le)
    ensures Sorted(Sort(vs, le), le)
  {
    if vs != [] {
      SortSorts(vs[..|vs| - 1], le);
      InsertKeepsSorted(Sort(vs[..|vs| - 1], le), vs[|vs| - 1], le);
    }
  }

  // ----- the code ----------------------------------------------------------------------------------

  /** The values of a dictionary whose keys were added in this order. */
  function Values<K(==)>(order: seq<K>, dict: map<K, Verdict>): (vs: seq<Verdict>)
    requires forall k :: k in order ==> k in dict
    ensures |vs| == |order| && forall i :: 0 <= i < |vs| ==> vs[i] == dict[order[i]]
  {
    seq(|order|, i requires 0 <= i < |order| => dict[order[i]])
  }

  /** The documents behind a directory scan. */
  function Documents(files: seq<FileRead>): seq<Verdict> {
    if files == [] then []
    else Documents(files[..|files| - 1])
         + match files[|files| - 1] { case Usable(v) => [v] case _ => [] }
  }

  ghost predicate Covers(merged: seq<Verdict>, d: Verdict) {
    exists v :: v in merged && Producer(v) == Producer(d) && Server(v) == Server(d) && v.observed >= d.observed
  }

  lemma {:induction false} DocumentsAreTheUsable(files: seq<FileRead>)
    ensures forall v :: v in Documents(files) <==> Usable(v) in files
  {
    if files != [] {
      var front, last := files[..|files| - 1], files[|files| - 1];
      DocumentsAreTheUsable(front);
      assert files == front + [last];
    }
  }

  /** A directory that holds just these verdicts. */
  function Filed(vs: seq<Verdict>): seq<FileRead> {
    seq(|vs|, i requires 0 <= i < |vs| => Usable(vs[i]))
  }

  lemma {:induction false} FiledDocuments(vs: seq<Verdict>)
    ensures Documents(Filed(vs)) == vs
  {
    if vs != [] {
      FiledDocuments(vs[..|vs| - 1]);
      assert Filed(vs)[..|vs| - 1] == Filed(vs[..|vs| - 1]);
      assert vs == vs[..|vs| - 1] + [vs[|vs| - 1]];
    }
  }

  /** One newest document per producer and server, and nothing that was not read. */
  ghost predicate Merges(merged: seq<Verdict>, docs: seq<Verdict>) {
    && (forall v :: v in merged ==> v in docs)
    && (forall d {:trigger Covers(merged, d)} :: d in docs ==> Covers(merged, d))
  }

  function Source(v: Verdict): (string, string) { (Producer(v), Server(v)) }

  lemma SameElements(a: seq<Verdict>, b: seq<Verdict>)
    requires multiset(a) == multiset(b)
    ensures forall v :: v in a <==> v in b
  {
    forall v ensures v in a <==> v in b {
      assert v in a <==> v in multiset(a);
      assert v in b <==> v in multiset(b);
    }
  }

  lemma MergesAnyOrder(a: seq<Verdict>, b: seq<Verdict>, docs: seq<Verdict>)
    requires multiset(a) == multiset(b) && Merges(a, docs)
    ensures Merges(b, docs)
  {
    SameElements(a, b);
    forall d | d in docs ensures Covers(b, d) {
      assert Covers(a, d);
    }
  }

  ghost predicate NewestOf(merged: map<(string, string), Verdict>, docs: seq<Verdict>) {
    && (forall k :: k in merged ==> Source(merged[k]) == k && merged[k] in docs)
    && (forall d :: d in docs ==> Source(d) in merged && merged[Source(d)].observed >= d.observed)
  }

  lemma ValuesMerge(order: seq<(string, string)>, merged: map<(string, string), Verdict>,
                    docs: seq<Verdict>, values: seq<Verdict>)
    requires forall k :: k in merged <==> k in order
    requires NewestOf(merged, docs)
    requires values == Values(order, merged)
    ensures Merges(values, docs)
  {
    forall d | d in docs ensures Covers(values, d) {
      var i :| 0 <= i < |order| && order[i] == Source(d);
      assert values[i] in values;
    }
  }

  method NewestPerProducer(files: seq<FileRead>) returns (values: seq<Verdict>)
    ensures Merges(values, Documents(files))
    ensures forall i, j :: 0 <= i < j < |values| ==> Source(values[i]) != Source(values[j])
  {
    var merged: map<(string, string), Verdict> := map[];
    var order: seq<(string, string)> := [];
    for n := 0 to |files|
      invariant forall k :: k in merged <==> k in order
      invariant forall i, j :: 0 <= i < j < |order| ==> order[i] != order[j]
      invariant NewestOf(merged, Documents(files[..n]))
    {
      assert files[..n + 1][..n] == files[..n];
      match files[n]
      case Unusable =>
      case Stale =>
      case Usable(verdict) =>
        var key := Source(verdict);
        if key !in merged {
          order := order + [key];
          merged := merged[key := verdict];
        } else if verdict.observed > merged[key].observed {
          merged := merged[key := verdict];
        }
    }
    assert files[..|files|] == files;
    values := Values(order, merged);
    ValuesMerge(order, merged, Documents(files), values);
  }

  lemma Twice(b: seq<Verdict>, i: nat, j: nat)
    requires i < j < |b| && b[i] == b[j]
    ensures multiset(b)[b[i]] >= 2
  {
    assert b == b[..j] + [b[j]] + b[j + 1..];
    assert b[..j][i] == b[j];
  }

  lemma {:induction false} AtMostOnce<K>(a: seq<Verdict>, v: Verdict, key: Verdict -> K)
    requires forall i, j :: 0 <= i < j < |a| ==> key(a[i]) != key(a[j])
    ensures multiset(a)[v] <= 1
  {
    if a != [] {
      var front, last := a[..|a| - 1], a[|a| - 1];
      assert a == front + [last];
      AtMostOnce(front, v, key);
      if v == last && v in front {
        assert false;
      }
    }
  }

  /** Sorting cannot make two entries of one key out of distinct ones. */
  lemma DistinctAfterSort<K>(a: seq<Verdict>, b: seq<Verdict>, key: Verdict -> K)
    requires multiset(a) == multiset(b)
    requires forall i, j :: 0 <= i < j < |a| ==> key(a[i]) != key(a[j])
    ensures forall i, j :: 0 <= i < j < |b| ==> key(b[i]) != key(b[j])
  {
    forall i, j | 0 <= i < j < |b| ensures key(b[i]) != key(b[j]) {
      SameElements(a, b);
      assert b[i] in a && b[j] in a;
      if b[i] == b[j] {
        Twice(b, i, j);
        AtMostOnce(a, b[i], key);
        assert false;
      }
    }
  }

  method LoadActiveVerdicts(files: seq<FileRead>) returns (r: seq<Verdict>)
    ensures Merges(r, Documents(files))
    ensures Sorted(r, NewestFirstByProducer)
    ensures forall i, j :: 0 <= i < j < |r| ==> Source(r[i]) != Source(r[j]) && r[i].observed >= r[j].observed
    ensures forall v :: v in r ==> Usable(v) in files
  {
    var values := NewestPerProducer(files);
    r := Sort(values, NewestFirstByProducer);
    OrdersAreTotal();
    SortSorts(values, NewestFirstByProducer);
    SortPermutes(values, NewestFirstByProducer);
    DistinctAfterSort(values, r, Source);
    MergesAnyOrder(values, r, Documents(files));
    DocumentsAreTheUsable(files);
  }

  /** For every survivor a verdict was read against, the newest one so far. */
  ghost predicate NewestAgainst(byServer: map<string, Verdict>, available: set<string>, vs: seq<Verdict>) {
    && (forall k :: k in byServer ==> k in available && Server(byServer[k]) == k && byServer[k] in vs)
    && (forall v :: v in vs && Server(v) in available ==>
          Server(v) in byServer && v.observed <= byServer[Server(v)].observed)
  }

  /** The loop: the newest verdict against each available server, and the order they came in. */
  method NewestAmong(available: set<string>, verdicts: seq<Verdict>)
    returns (order: seq<string>, byServer: map<string, Verdict>)
    ensures forall k :: k in byServer <==> k in order
    ensures forall i, j :: 0 <= i < j < |order| ==> order[i] != order[j]
    ensures NewestAgainst(byServer, available, verdicts)
  {
    order, byServer := [], map[];
    for n := 0 to |verdicts|
      invariant forall k :: k in byServer <==> k in order
      invariant forall i, j :: 0 <= i < j < |order| ==> order[i] != order[j]
      invariant NewestAgainst(byServer, available, verdicts[..n])
    {
      var verdict := verdicts[n];
      var key := Server(verdict);
      assert verdicts[..n + 1] == verdicts[..n] + [verdict];
      if key in available {
        if key !in byServer {
          order := order + [key];
          byServer := byServer[key := verdict];
        } else if verdict.observed > byServer[key].observed {
          byServer := byServer[key := verdict];
        }
      }
    }
    assert verdicts[..|verdicts|] == verdicts;
  }

  lemma NewestAreLatest(rows: seq<Row>, vs: seq<Verdict>, byServer: map<string, Verdict>)
    requires NewestAgainst(byServer, Names(rows), vs)
    ensures byServer.Keys == Suspects(rows, vs)
    ensures forall k :: k in byServer ==> byServer[k] in vs && LatestIs(vs, k, byServer[k].observed)
  {}

  lemma ValuesServers(order: seq<string>, byServer: map<string, Verdict>, values: seq<Verdict>)
    requires forall k :: k in byServer <==> k in order
    requires forall k :: k in byServer ==> Server(byServer[k]) == k
    requires values == Values(order, byServer)
    ensures Servers(values) == byServer.Keys
  {
    forall k | k in byServer ensures k in Servers(values) {
      var i :| 0 <= i < |order| && order[i] == k;
      assert values[i] in values;
    }
  }

  ghost predicate OnePerServer(queue: seq<Verdict>) {
    forall i, j :: 0 <= i < j < |queue| ==> Server(queue[i]) != Server(queue[j])
  }

  ghost predicate AllLatest(vs: seq<Verdict>, queue: seq<Verdict>) {
    forall v :: v in queue ==> v in vs && LatestIs(vs, Server(v), v.observed)
  }

  /** The latest verdict of every accused survivor, in any order. */
  ghost predicate IsSelection(rows: seq<Row>, vs: seq<Verdict>, queue: seq<Verdict>) {
    OnePerServer(queue) && Servers(queue) == Suspects(rows, vs) && AllLatest(vs, queue)
  }

  method NewestPerServer(survivors: seq<Row>, verdicts: seq<Verdict>) returns (values: seq<Verdict>)
    ensures IsSelection(survivors, verdicts, values)
  {
    var order, byServer := NewestAmong(Names(survivors), verdicts);
    values := Values(order, byServer);
    ValuesServers(order, byServer, values);
    NewestAreLatest(survivors, verdicts, byServer);
  }

  function Min(a: nat, b: nat): nat { if a < b then a else b }

  /** The accused survivors, one verdict each, newest first and then by name. */
  ghost predicate IsQueue(rows: seq<Row>, vs: seq<Verdict>, queue: seq<Verdict>) {
    Sorted(queue, NewestFirst) && IsSelection(rows, vs, queue)
  }

  lemma QueueFromValues(rows: seq<Row>, vs: seq<Verdict>, values: seq<Verdict>)
    requires IsSelection(rows, vs, values)
    ensures IsQueue(rows, vs, Sort(values, NewestFirst))
  {
    var queue := Sort(values, NewestFirst);
    OrdersAreTotal();
    SortSorts(values, NewestFirst);
    SortPermutes(values, NewestFirst);
    SameElements(queue, values);
    DistinctAfterSort(values, queue, Server);
  }

  lemma PlaceInQueue(queue: seq<Verdict>, k: string) returns (i: nat)
    requires k in Servers(queue)
    ensures i < |queue| && Server(queue[i]) == k
  {
    var v :| v in queue && Server(v) == k;
    i :| 0 <= i < |queue| && queue[i] == v;
  }

  lemma InPrefix(queue: seq<Verdict>, i: nat, cut: nat)
    requires OnePerServer(queue) && i < |queue| && cut <= |queue|
    ensures Server(queue[i]) in Servers(queue[..cut]) <==> i < cut
  {
    if i < cut {
      assert queue[..cut][i] == queue[i];
    } else {
      forall v | v in queue[..cut] ensures Server(v) != Server(queue[i]) {
        var j :| 0 <= j < cut && queue[j] == v;
      }
    }
  }

  lemma InPrefixOnly(queue: seq<Verdict>, cut: nat)
    requires cut <= |queue|
    ensures Servers(queue[..cut]) <= Servers(queue)
  {
    assert forall v :: v in queue[..cut] ==> v in queue;
  }

  lemma AheadIsPrefix(rows: seq<Row>, vs: seq<Verdict>, queue: seq<Verdict>, i: nat)
    requires IsQueue(rows, vs, queue) && i < |queue|
    ensures Ahead(rows, vs, Server(queue[i])) == Servers(queue[..i])
  {
    var k := Server(queue[i]);
    forall j | 0 <= j < |queue| ensures Precedes(vs, Server(queue[j]), k) <==> j < i {
      assert queue[j] in queue && queue[i] in queue;
      assert Latest(vs, Server(queue[j])) == queue[j].observed && Latest(vs, k) == queue[i].observed;
      if i < j {
        assert NewestFirst(queue[i], queue[j]);
        if Precedes(vs, Server(queue[j]), k) { AtMostIsAntisymmetric(k, Server(queue[j])); }
      }
    }
    forall a | a in Suspects(rows, vs) ensures a in Servers(queue[..i]) <==> Precedes(vs, a, k) {
      var j := PlaceInQueue(queue, a);
      InPrefix(queue, j, i);
    }
    InPrefixOnly(queue, i);
  }

  lemma OneMoreServer(front: seq<Verdict>, last: Verdict)
    ensures Servers(front + [last]) == Servers(front) + {Server(last)}
    ensures OnePerServer(front) && Server(last) !in Servers(front) ==> OnePerServer(front + [last])
  {
    forall i | 0 <= i < |front| ensures Server(front[i]) in Servers(front) {
      assert front[i] in front;
    }
    forall k ensures k in Servers(front + [last]) <==> k in Servers(front) || k == Server(last) {
      if k in Servers(front) {
        var v :| v in front && Server(v) == k;
        assert v in front + [last];
      }
      assert last in front + [last];
    }
  }

  lemma OneServerCounted(front: seq<Verdict>, last: Verdict)
    requires Server(last) !in Servers(front)
    ensures |Servers(front + [last])| == |Servers(front)| + 1
  {
    OneMoreServer(front, last);
  }

  lemma {:induction false} ServersCount(queue: seq<Verdict>)
    requires OnePerServer(queue)
    ensures |Servers(queue)| == |queue|
  {
    if queue == [] {
      assert Servers(queue) == {};
    } else {
      var front, last := queue[..|queue| - 1], queue[|queue| - 1];
      InPrefix(queue, |front|, |front|);
      ServersCount(front);
      assert queue == front + [last];
      OneServerCounted(front, last);
    }
  }

  /** The n-th verdict of the queue has exactly n servers ahead of it. */
  lemma QueuePrefixIsRejected(rows: seq<Row>, vs: seq<Verdict>, fraction: Fraction, queue: seq<Verdict>)
    requires rows != [] && IsQueue(rows, vs, queue)
    ensures |queue| == |Suspects(rows, vs)|
    ensures var cut := Min(Limit(|rows|, fraction), |queue|);
            Servers(queue[..cut]) == Rejected(rows, vs, fraction)
  {
    var limit := Limit(|rows|, fraction);
    var cut := Min(limit, |queue|);
    ServersCount(queue);
    forall k | k in Suspects(rows, vs)
      ensures k in Servers(queue[..cut]) <==> Ejected(rows, vs, fraction, k)
    {
      var i := PlaceInQueue(queue, k);
      AheadIsPrefix(rows, vs, queue, i);
      ServersCount(queue[..i]);
      InPrefix(queue, i, cut);
    }
    InPrefixOnly(queue, cut);
  }

  method ApplyEjections(survivors: seq<Row>, verdicts: seq<Verdict>, maxFraction: Fraction)
    returns (kept: seq<Row>, ejected: seq<Verdict>, capped: seq<Verdict>)
    ensures kept == Kept(survivors, verdicts, maxFraction)
    ensures survivors == [] ==> ejected == [] && capped == []
    ensures survivors != [] ==> IsQueue(survivors, verdicts, ejected + capped)
    ensures survivors != [] ==>
              Servers(ejected) == Rejected(survivors, verdicts, maxFraction)
    ensures survivors != [] ==>
              |ejected| == Min(Limit(|survivors|, maxFraction), |Suspects(survivors, verdicts)|)
  {
    if survivors == [] { return [], [], []; }
    var values := NewestPerServer(survivors, verdicts);
    var ordered := Sort(values, NewestFirst);
    QueueFromValues(survivors, verdicts, values);
    var limit := Limit(|survivors|, maxFraction);
    var cut := if limit < |ordered| then limit else |ordered|;
    ejected, capped := ordered[..cut], ordered[cut..];
    assert ordered == ejected + capped;
    QueuePrefixIsRejected(survivors, verdicts, maxFraction, ordered);
    kept := Without(survivors, Servers(ejected));
  }

  lemma KeptCounts(rows: seq<Row>, vs: seq<Verdict>, fraction: Fraction)
    requires rows != [] && UniqueNames(rows)
    ensures |Kept(rows, vs, fraction)| + |Rejected(rows, vs, fraction)| == |rows|
  {
    WithoutCounts(rows, Rejected(rows, vs, fraction));
  }

  lemma LatestVerdict(vs: seq<Verdict>, k: string) returns (v: Verdict)
    requires Accused(vs, k)
    ensures Server(v) == k && v in vs && LatestIs(vs, k, v.observed)
  {
    assert LatestIs(vs, k, Latest(vs, k));
    v :| v in vs && Server(v) == k && v.observed == Latest(vs, k);
  }

  lemma AllLatestGrows(vs: seq<Verdict>, rest: seq<Verdict>, v: Verdict)
    requires AllLatest(vs, rest) && v in vs && LatestIs(vs, Server(v), v.observed)
    ensures AllLatest(vs, rest + [v])
  {}

  lemma {:induction false} SelectionExists(vs: seq<Verdict>, ks: set<string>) returns (values: seq<Verdict>)
    requires forall k :: k in ks ==> Accused(vs, k)
    ensures OnePerServer(values) && Servers(values) == ks && AllLatest(vs, values)
    decreases |ks|
  {
    if ks == {} {
      values := [];
    } else {
      var k :| k in ks;
      var v := LatestVerdict(vs, k);
      var rest := SelectionExists(vs, ks - {k});
      values := rest + [v];
      OneMoreServer(rest, v);
      assert ks == ks - {k} + {k};
      AllLatestGrows(vs, rest, v);
    }
  }

  lemma LatestSurvivesMerging(docs: seq<Verdict>, merged: seq<Verdict>, k: string)
    requires Merges(merged, docs)
    requires Accused(docs, k) || Accused(merged, k)
    ensures Accused(docs, k) && Accused(merged, k) && Latest(docs, k) == Latest(merged, k)
  {
    var v :| (v in docs || v in merged) && Server(v) == k;
    assert v in docs;
    var d :| d in docs && Server(d) == k && d.observed == Latest(docs, k);
    assert Covers(merged, d);
    var m :| m in merged && Server(m) == k && m.observed >= d.observed;
    assert m in docs;
    forall w | w in merged && Server(w) == k ensures w.observed <= m.observed {
      assert w in docs && LatestIs(docs, k, Latest(docs, k));
    }
    assert LatestIs(merged, k, m.observed);
  }

  /** Merging per producer first changes nothing: the kept list is the one over all documents. */
  lemma MergingIsInvisible(rows: seq<Row>, docs: seq<Verdict>, merged: seq<Verdict>, fraction: Fraction)
    requires Merges(merged, docs)
    ensures Kept(rows, merged, fraction) == Kept(rows, docs, fraction)
  {
    forall row | row in rows && (Accused(docs, Key(row)) || Accused(merged, Key(row)))
      ensures Accused(docs, Key(row)) && Accused(merged, Key(row))
      ensures Latest(docs, Key(row)) == Latest(merged, Key(row))
    {
      LatestSurvivesMerging(docs, merged, Key(row));
    }
    KeptDependsOnLatestOnly(rows, docs, merged, fraction);
  }

  // ----- what a cut leaves -------------------------------------------------------------------------------

  lemma CappedAreOlder(ejected: seq<Verdict>, capped: seq<Verdict>)
    requires Sorted(ejected + capped, NewestFirst)
    ensures forall e, c :: e in ejected && c in capped ==> c.observed <= e.observed
    ensures forall e, c :: e in ejected && c in capped && c.observed == e.observed ==> AtMost(Server(e), Server(c))
  {
    forall e, c | e in ejected && c in capped
      ensures c.observed <= e.observed
      ensures c.observed == e.observed ==> AtMost(Server(e), Server(c))
    {
      var i :| 0 <= i < |ejected| && ejected[i] == e;
      var j :| 0 <= j < |capped| && capped[j] == c;
      assert NewestFirst((ejected + capped)[i], (ejected + capped)[|ejected| + j]);
    }
  }

  /** Bounds of the cut: something stays, nothing is lost, and the cap spares only older verdicts, or
      of one age those later in the alphabet. */
  lemma EjectionBounds(rows: seq<Row>, vs: seq<Verdict>, fraction: Fraction,
                       ejected: seq<Verdict>, capped: seq<Verdict>)
    requires rows != [] && UniqueNames(rows)
    requires IsQueue(rows, vs, ejected + capped)
    requires |ejected| == Min(Limit(|rows|, fraction), |Suspects(rows, vs)|)
    ensures |Kept(rows, vs, fraction)| + |ejected| == |rows|
    ensures Kept(rows, vs, fraction) != []
    ensures |ejected| <= |rows| - 1
    ensures forall e, c :: e in ejected && c in capped ==> c.observed <= e.observed
    ensures forall e, c :: e in ejected && c in capped && c.observed == e.observed ==> AtMost(Server(e), Server(c))
  {
    var queue := ejected + capped;
    QueuePrefixIsRejected(rows, vs, fraction, queue);
    assert queue[..|ejected|] == ejected;
    ServersCount(ejected);
    KeptCounts(rows, vs, fraction);
    CappedAreOlder(ejected, capped);
  }

  /** A row is kept exactly when its server is not accused, or at least as many accused servers as the
      cap allows have a newer latest verdict, or one of the same moment and an earlier name. */
  lemma KeptExactly(rows: seq<Row>, vs: seq<Verdict>, fraction: Fraction, row: Row)
    requires row in rows
    ensures row in Kept(rows, vs, fraction)
            <==> (exists v :: v in vs && Server(v) == Key(row)) ==>
                   |MoreUrgent(rows, vs, Latest(vs, Key(row)), Key(row))| >= Limit(|rows|, fraction)
  {
    WithoutExactly(rows, Rejected(rows, vs, fraction), row);
    if Accused(vs, Key(row)) {
      assert Key(row) in Suspects(rows, vs);
      AheadIsMoreUrgent(rows, vs, Key(row));
    } else {
      NotAccused(vs, Key(row));
    }
  }

  /** The accused servers with a newer latest verdict than `t`, or one of that moment and an earlier name. */
  ghost function MoreUrgent(rows: seq<Row>, vs: seq<Verdict>, t: real, name: string): set<string> {
    set k | k in Names(rows) && Accused(vs, k)
            && (Latest(vs, k) > t || (Latest(vs, k) == t && k != name && AtMost(k, name)))
  }

  lemma AheadIsMoreUrgent(rows: seq<Row>, vs: seq<Verdict>, name: string)
    requires Accused(vs, name)
    ensures Ahead(rows, vs, name) == MoreUrgent(rows, vs, Latest(vs, name), name)
  {
    assert Suspects(rows, vs) <= Names(rows);
    forall k | k in Names(rows) && Accused(vs, k) ensures k in Suspects(rows, vs) {}
  }

  lemma NotAccused(vs: seq<Verdict>, name: string)
    ensures Accused(vs, name) <==> !(forall v :: v in vs ==> Server(v) != name)
  {}

  lemma {:induction false} WithoutExactly(rows: seq<Row>, rejected: set<string>, row: Row)
    ensures row in Without(rows, rejected) <==> row in rows && Key(row) !in rejected
  {
    if rows != [] {
      WithoutExactly(rows[1..], rejected, row);
      assert row in rows <==> row == rows[0] || row in rows[1..];
    }
  }

  /** Whatever the rows, the cut rejects as many names as it may and as there are suspects. */
  lemma RejectedCount(rows: seq<Row>, vs: seq<Verdict>, fraction: Fraction)
    requires rows != []
    ensures |Rejected(rows, vs, fraction)| == Min(Limit(|rows|, fraction), |Suspects(rows, vs)|)
  {
    var values := SelectionExists(vs, Suspects(rows, vs));
    QueueFromValues(rows, vs, values);
    var queue := Sort(values, NewestFirst);
    QueuePrefixIsRejected(rows, vs, fraction, queue);
    ServersCount(queue[..Min(Limit(|rows|, fraction), |queue|)]);
  }

  lemma {:induction false} NothingLeftIff(rows: seq<Row>, rejected: set<string>)
    ensures Without(rows, rejected) == [] <==> Names(rows) <= rejected
  {
    if rows != [] {
      NothingLeftIff(rows[1..], rejected);
      assert Names(rows) == {Key(rows[0])} + Names(rows[1..]) by { assert rows == [rows[0]] + rows[1..]; }
    }
  }

  lemma AllAccusedIff(rows: seq<Row>, vs: seq<Verdict>)
    ensures Suspects(rows, vs) <= Names(rows)
    ensures Suspects(rows, vs) == Names(rows) <==> forall row :: row in rows ==> Accused(vs, Key(row))
  {
    if Suspects(rows, vs) == Names(rows) {
      forall row | row in rows ensures Accused(vs, Key(row)) {
        assert Key(row) in Names(rows);
      }
    }
  }

  lemma {:induction false} SubsetSizes(a: set<string>, b: set<string>)
    requires a <= b
    ensures |a| <= |b| && (|a| == |b| <==> a == b)
  {
    if a != {} {
      var x :| x in a;
      SubsetSizes(a - {x}, b - {x});
    }
  }

  /** Something is left to rank except exactly when every name is accused and the cap, which counts
      rows, is no smaller than the number of names. Where names are unique it is smaller, and the
      cut removes exactly as many rows as names. */
  lemma KeptIsNonEmpty(rows: seq<Row>, vs: seq<Verdict>, fraction: Fraction)
    requires rows != []
    ensures Kept(rows, vs, fraction) == []
            <==> (forall row :: row in rows ==> Accused(vs, Key(row))) && |Names(rows)| <= Limit(|rows|, fraction)
    ensures UniqueNames(rows) ==>
              && Kept(rows, vs, fraction) != []
              && |rows| - |Kept(rows, vs, fraction)| == Min(Limit(|rows|, fraction), |Suspects(rows, vs)|)
  {
    var rejected, suspects := Rejected(rows, vs, fraction), Suspects(rows, vs);
    RejectedCount(rows, vs, fraction);
    NothingLeftIff(rows, rejected);
    AllAccusedIff(rows, vs);
    SubsetSizes(rejected, suspects);
    SubsetSizes(suspects, Names(rows));
    if UniqueNames(rows) { KeptCounts(rows, vs, fraction); }
  }

  lemma {:induction false} OnlyOneLeft(rows: seq<Row>, rejected: set<string>, row: Row)
    requires UniqueNames(rows) && row in rows && Key(row) !in rejected
    requires Names(rows) - {Key(row)} <= rejected
    ensures Without(rows, rejected) == [row]
  {
    FirstNameIsAlone(rows);
    if rows[0] == row {
      assert Names(rows[1..]) <= rejected by {
        assert forall other :: other in rows[1..] ==> Key(other) != Key(row);
      }
      NothingLeftIff(rows[1..], rejected);
    } else {
      assert row in rows[1..];
      OnlyOneLeft(rows[1..], rejected, row);
    }
  }

  function Accusing(rows: seq<Row>, spared: string): seq<Verdict> {
    if rows == [] then []
    else (if Key(rows[0]) == spared then [] else [Verdict("", rows[0].name, 0.0)]) + Accusing(rows[1..], spared)
  }

  lemma {:induction false} AccusingServers(rows: seq<Row>, spared: string)
    ensures Servers(Accusing(rows, spared)) == Names(rows) - {spared}
  {
    if rows != [] {
      var rest := Accusing(rows[1..], spared);
      AccusingServers(rows[1..], spared);
      assert Names(rows) == {Key(rows[0])} + Names(rows[1..]) by { assert rows == [rows[0]] + rows[1..]; }
      if Key(rows[0]) != spared {
        OneServerFirst(Verdict("", rows[0].name, 0.0), rest);
      } else {
        assert Accusing(rows, spared) == rest;
      }
    }
  }

  lemma OneServerFirst(first: Verdict, rest: seq<Verdict>)
    ensures Servers([first] + rest) == {Server(first)} + Servers(rest)
  {
    assert forall v :: v in [first] + rest <==> v == first || v in rest;
  }

  lemma SuspectsAreAccused(rows: seq<Row>, vs: seq<Verdict>)
    ensures Suspects(rows, vs) == Names(rows) * Servers(vs)
  {
    forall k ensures Accused(vs, k) <==> k in Servers(vs) {}
  }

  /** With the whole fraction, any one row can be the only one left. */
  lemma OneCanRemain(rows: seq<Row>, row: Row) returns (vs: seq<Verdict>)
    requires UniqueNames(rows) && row in rows
    ensures Kept(rows, vs, Finite(1.0)) == [row]
  {
    vs := Accusing(rows, Key(row));
    AccusingServers(rows, Key(row));
    SuspectsAreAccused(rows, vs);
    var others := Names(rows) - {Key(row)};
    assert Suspects(rows, vs) == others;
    NamesCount(rows);
    OneNameLess(Names(rows), Key(row));
    LimitIsAFloor(|rows|, Finite(1.0));
    RejectedCount(rows, vs, Finite(1.0));
    SubsetSizes(Rejected(rows, vs, Finite(1.0)), others);
    OnlyOneLeft(rows, others, row);
  }

  lemma NamesCount(rows: seq<Row>)
    requires UniqueNames(rows)
    ensures |Names(rows)| == |rows|
  {
    WithoutCounts(rows, Names(rows));
    NothingLeftIff(rows, Names(rows));
  }

  /** Of two rows, one of them accused, half the fraction leaves the other. */
  lemma OneOfTwoRemains(a: Row, b: Row, v: Verdict)
    requires Key(a) != Key(b) && Server(v) == Key(b)
    ensures Kept([a, b], [v], Finite(0.5)) == [a]
  {
    var rows := [a, b];
    assert Names(rows) == {Key(a), Key(b)} by { assert a in rows && b in rows; }
    assert Servers([v]) == {Key(b)} by { assert v in [v]; }
    SuspectsAreAccused(rows, [v]);
    assert Suspects(rows, [v]) == {Key(b)};
    assert (2 as real * 0.5).Floor == 1;
    RejectedCount(rows, [v], Finite(0.5));
    SubsetSizes(Rejected(rows, [v], Finite(0.5)), {Key(b)});
    assert a in rows;
    OnlyOneLeft(rows, {Key(b)}, a);
  }

  lemma FractionBelowWhole(n: real, f: real)
    requires n > 0.0 && 0.0 <= f < 1.0
    ensures 0.0 <= n * f < n
  {
    assert n * (1.0 - f) > 0.0;
  }

  /** The cap is the floor of the fraction; a fraction that is no number, or negative, ejects nothing. */
  lemma LimitIsAFloor(n: nat, fraction: Fraction)
    requires n > 0
    ensures fraction == NotFinite ==> Limit(n, fraction) == 0
    ensures fraction.Finite? && fraction.value <= 0.0 ==> Limit(n, fraction) == 0
    ensures fraction.Finite? && fraction.value >= 1.0 ==> Limit(n, fraction) == n - 1
    ensures fraction.Finite? && 0.0 <= fraction.value < 1.0 ==>
              Limit(n, fraction) as real <= n as real * fraction.value < Limit(n, fraction) as real + 1.0
  {
    if fraction.Finite? && 0.0 <= fraction.value < 1.0 {
      FractionBelowWhole(n as real, fraction.value);
      var share := (n as real * fraction.value).Floor;
      assert share <= n - 1;
    }
  }

  /** Two survivors under one name: the uniqueness the writer relies on is not decoration. */
  lemma DuplicateNamesCanEmptyTheRanking(row: Row, v: Verdict)
    requires Server(v) == Key(row)
    ensures Kept([row, row], [v], Finite(0.5)) == []
  {
    var rows, vs := [row, row], [v];
    assert row in rows && v in vs;
    assert Suspects(rows, vs) == {Key(row)};
    assert LatestIs(vs, Key(row), v.observed);
    assert Ahead(rows, vs, Key(row)) == {};
    assert (2 as real * 0.5).Floor == 1;
    assert Rejected(rows, vs, Finite(0.5)) == {Key(row)};
    assert rows[1..] == [row] && Without([row], {Key(row)}) == [];
  }
}
