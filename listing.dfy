/** What the list handlers share: the `ORDER BY` sort keys, the
    `LIMIT`/`OFFSET` window, `Math.ceil(total / limit)` and the execution of
    a `SELECT ... WHERE ... ORDER BY` over one table. */
module Listing {
  import opened Common

  /** A list response: one window of rows, the `COUNT(*)` of all matching
      rows and the pagination block. */
  datatype Page<T> = Page(items: seq<T>, total: nat, currentPage: int, totalPages: Option<nat>, limit: int)

  /** A sort key compared lexicographically, smallest first. */
  datatype Key = Key(major: int, mid: int, minor: int)

  predicate KeyLe(x: Key, y: Key) {
    || x.major < y.major
    || (x.major == y.major && (x.mid < y.mid || (x.mid == y.mid && x.minor <= y.minor)))
  }

  /** `ORDER BY created_at DESC`. */
  function NewestFirst(createdAt: Time): Key {
    Key(-createdAt, 0, 0)
  }

  /** Newer rows come first. */
  lemma NewestFirstOrder(a: Time, b: Time)
    ensures KeyLe(NewestFirst(a), NewestFirst(b)) <==> a >= b
  {
  }

  predicate SortedBy<T>(s: seq<T>, key: T -> Key) {
    forall i, j :: 0 <= i < j < |s| ==> KeyLe(key(s[i]), key(s[j]))
  }

  function Insert<T>(x: T, s: seq<T>, key: T -> Key): (r: seq<T>)
    ensures multiset(r) == multiset(s) + multiset{x}
  {
    if s == [] then [x]
    else if KeyLe(key(x), key(s[0])) then [x] + s
    else
      assert s == [s[0]] + s[1..];
      [s[0]] + Insert(x, s[1..], key)
  }

  /** Every element of `s` is at least `lo`. */
  predicate AllAbove<T>(lo: Key, s: seq<T>, key: T -> Key) {
    forall i :: 0 <= i < |s| ==> KeyLe(lo, key(s[i]))
  }

  lemma {:induction false} InsertAbove<T>(lo: Key, x: T, s: seq<T>, key: T -> Key)
    requires AllAbove(lo, s, key) && KeyLe(lo, key(x))
    ensures AllAbove(lo, Insert(x, s, key), key)
  {
    if s != [] && !KeyLe(key(x), key(s[0])) {
      InsertAbove(lo, x, s[1..], key);
      var rest := Insert(x, s[1..], key);
      assert Insert(x, s, key) == [s[0]] + rest;
      forall i | 0 <= i < |[s[0]] + rest| ensures KeyLe(lo, key(([s[0]] + rest)[i])) {
        if i > 0 { assert ([s[0]] + rest)[i] == rest[i - 1]; }
      }
    }
  }

  lemma {:induction false} InsertSorted<T>(x: T, s: seq<T>, key: T -> Key)
    requires SortedBy(s, key)
    ensures SortedBy(Insert(x, s, key), key)
  {
    if s == [] {
    } else if KeyLe(key(x), key(s[0])) {
      var r := [x] + s;
      forall i, j | 0 <= i < j < |r| ensures KeyLe(key(r[i]), key(r[j])) {
        if i == 0 {
          assert r[j] == s[j - 1];
          assert KeyLe(key(s[0]), key(s[j - 1]));
        } else {
          assert r[i] == s[i - 1] && r[j] == s[j - 1];
        }
      }
    } else {
      var tail := s[1..];
      assert SortedBy(tail, key) by {
        forall i, j | 0 <= i < j < |tail| ensures KeyLe(key(tail[i]), key(tail[j])) {
          assert tail[i] == s[i + 1] && tail[j] == s[j + 1];
        }
      }
      InsertSorted(x, tail, key);
      assert AllAbove(key(s[0]), tail, key) by {
        forall i | 0 <= i < |tail| ensures KeyLe(key(s[0]), key(tail[i])) {
          assert tail[i] == s[i + 1];
        }
      }
      InsertAbove(key(s[0]), x, tail, key);
      var rest := Insert(x, tail, key);
      var r := [s[0]] + rest;
      assert Insert(x, s, key) == r;
      forall i, j | 0 <= i < j < |r| ensures KeyLe(key(r[i]), key(r[j])) {
        assert r[j] == rest[j - 1];
        if i > 0 { assert r[i] == rest[i - 1]; }
      }
    }
  }

  /** Insertion sort: a permutation of its input, ordered by `key`. */
  function SortBy<T>(s: seq<T>, key: T -> Key): (r: seq<T>)
    ensures multiset(r) == multiset(s)
    ensures SortedBy(r, key)
  {
    if s == [] then []
    else
      var sorted := SortBy(s[1..], key);
      InsertSorted(s[0], sorted, key);
      assert s == [s[0]] + s[1..];
      Insert(s[0], sorted, key)
  }

  /** `OFFSET (page - 1) * limit` as the handlers compute it. */
  function Offset(page: int, limit: int): int {
    (page - 1) * limit
  }

  /** `LIMIT limit OFFSET offset` applied to an ordered result. */
  function Window<T>(s: seq<T>, offset: nat, limit: nat): (w: seq<T>)
    ensures |w| <= limit
    ensures |w| == if offset >= |s| then 0 else if limit < |s| - offset then limit else |s| - offset
    ensures forall i :: 0 <= i < |w| ==> w[i] == s[offset + i]
  {
    if offset >= |s| then []
    else if limit < |s| - offset then s[offset..offset + limit]
    else s[offset..]
  }

  /** `Math.ceil(total / limit)`; for `limit == 0` JavaScript gives `Infinity`
      or `NaN`, which the JSON response carries as `null`. */
  function TotalPages(total: nat, limit: nat): (p: Option<nat>)
    ensures p.None? <==> limit == 0
  {
    if limit == 0 then None else Some((total + limit - 1) / limit)
  }

  /** The page count is the least number of pages of `limit` rows that
      hold `total` rows. */
  lemma TotalPagesIsCeiling(total: nat, limit: nat)
    requires limit > 0
    ensures TotalPages(total, limit).value * limit >= total
    ensures TotalPages(total, limit).value * limit < total + limit
  {
    var p := (total + limit - 1) / limit;
    var m := (total + limit - 1) % limit;
    assert total + limit - 1 == p * limit + m;
    assert p * limit == total + limit - 1 - m;
  }

  lemma MulMonotone(a: int, b: int, c: nat)
    requires a <= b
    ensures a * c <= b * c
  {
    assert b * c - a * c == (b - a) * c;
  }

  /** Pages `1 .. totalPages` are the non-empty windows; every later page is
      empty. */
  lemma PagesCoverResult<T>(s: seq<T>, limit: nat, page: int)
    requires limit > 0 && page >= 1
    ensures Offset(page, limit) >= 0
    ensures Window(s, Offset(page, limit), limit) != [] <==> page <= TotalPages(|s|, limit).value
  {
    TotalPagesIsCeiling(|s|, limit);
    var p := TotalPages(|s|, limit).value;
    MulMonotone(0, page - 1, limit);
    if page <= p {
      MulMonotone(page - 1, p - 1, limit);
      assert (p - 1) * limit == p * limit - limit;
      assert Offset(page, limit) < |s|;
    } else {
      MulMonotone(p, page - 1, limit);
      assert Offset(page, limit) >= |s|;
    }
  }

  /** Row `i` of an ordered result appears on page `i / limit + 1`, at
      position `i % limit`, so walking the pages visits every row once. */
  lemma RowOnItsPage<T>(s: seq<T>, limit: nat, i: nat)
    requires limit > 0 && i < |s|
    ensures Offset(i / limit + 1, limit) >= 0
    ensures var w := Window(s, Offset(i / limit + 1, limit), limit);
      i % limit < |w| && w[i % limit] == s[i]
  {
    assert i == (i / limit) * limit + i % limit;
    assert Offset(i / limit + 1, limit) == (i / limit) * limit;
  }

  /** The rows of `table` that satisfy `keep`: the `WHERE` clause. */
  ghost function Matching<T>(table: map<Id, T>, keep: T -> bool): set<Id> {
    set k | k in table && keep(table[k])
  }

  function RowKey<T>(table: map<Id, T>, key: T -> Key, k: Id): Key {
    if k in table then key(table[k]) else Key(0, 0, 0)
  }

  lemma RepeatCountsTwice<T>(s: seq<T>, i: nat, j: nat)
    requires i < j < |s|
    ensures s[i] == s[j] ==> multiset(s)[s[i]] >= 2
  {
    assert s == s[..j] + s[j..];
    assert s[..j][i] == s[i] && s[j..][0] == s[j];
    assert s[i] in multiset(s[..j]) && s[j] in multiset(s[j..]);
  }

  function Elements(s: seq<Id>): set<Id> {
    set x | x in s
  }

  /** A sequence without repeats is as long as the set of its elements. */
  lemma {:induction false} DistinctLength(s: seq<Id>)
    requires forall i, j :: 0 <= i < j < |s| ==> s[i] != s[j]
    ensures |s| == |Elements(s)|
  {
    if s == [] {
      assert Elements(s) == {};
    } else {
      var tail := s[1..];
      forall i, j | 0 <= i < j < |tail| ensures tail[i] != tail[j] {
        assert tail[i] == s[i + 1] && tail[j] == s[j + 1];
      }
      DistinctLength(tail);
      forall k | 0 <= k < |tail| ensures tail[k] != s[0] {
        assert tail[k] == s[k + 1];
      }
      assert Elements(s) == Elements(tail) + {s[0]} && s[0] !in Elements(tail);
    }
  }

  /** A sequence with the multiset of a set holds each member once. */
  lemma {:induction false} SetAsSequence(s: seq<Id>, m: set<Id>)
    requires multiset(s) == multiset(m)
    ensures |s| == |m|
    ensures forall x :: x in s <==> x in m
    ensures forall i, j :: 0 <= i < j < |s| ==> s[i] != s[j]
  {
    assert |multiset(s)| == |s|;
    assert |multiset(m)| == |m|;
    forall x ensures x in s <==> x in m {
      assert x in s <==> x in multiset(s);
    }
    forall i, j | 0 <= i < j < |s| ensures s[i] != s[j] {
      RepeatCountsTwice(s, i, j);
    }
  }

  /** The matching rows outside `rest`: those a scan has already passed. */
  ghost function Scanned<T>(table: map<Id, T>, keep: T -> bool, rest: set<Id>): set<Id> {
    set k | k in table && k !in rest && keep(table[k])
  }

  /** The table scan: every matching row once, in no particular order. */
  method Scan<T>(table: map<Id, T>, keep: T -> bool) returns (found: seq<Id>)
    ensures multiset(found) == multiset(Matching(table, keep))
  {
    var rest := table.Keys;
    found := [];
    while rest != {}
      invariant rest <= table.Keys
      invariant multiset(found) == multiset(Scanned(table, keep, rest))
      decreases |rest|
    {
      var k :| k in rest;
      ghost var before := Scanned(table, keep, rest);
      rest := rest - {k};
      if keep(table[k]) {
        assert Scanned(table, keep, rest) == before + {k} && k !in before;
        found := found + [k];
      } else {
        assert Scanned(table, keep, rest) == before;
      }
    }
    assert Scanned(table, keep, rest) == Matching(table, keep);
  }

  /** `SELECT id FROM table WHERE keep ORDER BY key`: every matching row
      exactly once, in key order; rows with equal keys come in an
      unspecified order, as in SQL. */
  method Select<T>(table: map<Id, T>, keep: T -> bool, key: T -> Key) returns (ids: seq<Id>)
    ensures forall i :: 0 <= i < |ids| ==> ids[i] in table && keep(table[ids[i]])
    ensures forall k :: k in table && keep(table[k]) ==> k in ids
    ensures forall i, j :: 0 <= i < j < |ids| ==> ids[i] != ids[j]
    ensures forall i, j :: 0 <= i < j < |ids| ==> KeyLe(key(table[ids[i]]), key(table[ids[j]]))
    ensures |ids| == |Matching(table, keep)|
  {
    var found := Scan(table, keep);
    var rank := (k: Id) => RowKey(table, key, k);
    ids := SortBy(found, rank);
    SetAsSequence(ids, Matching(table, keep));
    forall i | 0 <= i < |ids| ensures ids[i] in table && keep(table[ids[i]]) {
      assert ids[i] in Matching(table, keep);
    }
    forall i, j | 0 <= i < j < |ids| ensures KeyLe(key(table[ids[i]]), key(table[ids[j]])) {
      assert KeyLe(rank(ids[i]), rank(ids[j]));
    }
    forall k | k in table && keep(table[k]) ensures k in ids {
      assert k in Matching(table, keep);
    }
  }

  /** A column named in a `WHERE`: bare, or qualified by a table alias. */
  datatype ColumnRef = Bare(name: string) | Of(alias: string, name: string)

  /** The aliases of a `FROM` (alias to column names) whose table has the column. */
  function Holders(from: map<string, set<string>>, name: string): set<string> {
    set a | a in from && name in from[a]
  }

  /** PostgreSQL accepts a bare column that exactly one table of the `FROM`
      has (two make it ambiguous) and a qualified one that its own table has. */
  predicate Resolves(from: map<string, set<string>>, col: ColumnRef) {
    match col
    case Bare(n) => |Holders(from, n)| == 1
    case Of(a, n) => a in from && n in from[a]
  }

  /** A statement runs only when every column it names resolves. */
  predicate AllResolve(from: map<string, set<string>>, cols: seq<ColumnRef>) {
    forall i :: 0 <= i < |cols| ==> Resolves(from, cols[i])
  }
}
