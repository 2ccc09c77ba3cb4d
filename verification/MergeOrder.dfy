// When the order in which records are merged matters.
module MergeOrder {
  import opened Types
  import opened Keys
  import opened Tables

  // ---------------------------------------------------------------- two records

  // The table after merging a record that verifies.
  function Merged(table: map<Key, Record>, r: Record): map<Key, Record> {
    if Supersedes(table, r) then table[KeyOf(r.body) := r] else table
  }

  lemma MergedIsMerge(t: Tab, raw: u32, r: Record)
    requires !IsEncounter(r.Type())
    ensures Merge(t, Some(raw), true, r).tab.table == Merged(t.table, r)
  {
    hide KeyOf;
  }

  // Neither record is newer than the other.
  predicate Tied(x: Body, y: Body) {
    !Newer(x, y) && !Newer(y, x)
  }

  // Of two tied records the one merged first stays, whichever it is.
  lemma TiedKeepTheFirst(table: map<Key, Record>, x: Record, y: Record)
    requires KeyOf(x.body) == KeyOf(y.body) && Tied(x.body, y.body)
    ensures Supersedes(table, x) <==> Supersedes(table, y)
    ensures Supersedes(table, x) ==>
              && Merged(Merged(table, x), y) == table[KeyOf(x.body) := x]
              && Merged(Merged(table, y), x) == table[KeyOf(x.body) := y]
  {
    hide KeyOf;
  }

  // Two records can be merged into every table in either order if and only if they lie under
  // different keys, are the same, or one is newer.
  lemma MergesCommuteIff(x: Record, y: Record)
    ensures (forall table: map<Key, Record> :: Merged(Merged(table, x), y) == Merged(Merged(table, y), x)) <==>
            KeyOf(x.body) != KeyOf(y.body) || x == y || !Tied(x.body, y.body)
  {
    hide KeyOf;
    var empty: map<Key, Record> := map[];
    if KeyOf(x.body) == KeyOf(y.body) && Tied(x.body, y.body) {
      TiedKeepTheFirst(empty, x, y);
      assert empty[KeyOf(x.body) := x][KeyOf(x.body)] == x && empty[KeyOf(x.body) := y][KeyOf(x.body)] == y;
    }
    forall table: map<Key, Record> | KeyOf(x.body) != KeyOf(y.body) || x == y || !Tied(x.body, y.body)
      ensures Merged(Merged(table, x), y) == Merged(Merged(table, y), x)
    {
      MergesCommute(table, x, y);
    }
  }

  lemma MergesCommute(table: map<Key, Record>, x: Record, y: Record)
    requires KeyOf(x.body) != KeyOf(y.body) || x == y || !Tied(x.body, y.body)
    ensures Merged(Merged(table, x), y) == Merged(Merged(table, y), x)
  {
    hide KeyOf;
  }

  // ---------------------------------------------------------------- any number of records

  // x lies in s under k and no other record there is newer.
  ghost predicate IsNewest(s: set<Record>, k: Key, x: Record) {
    && x in s && KeyOf(x.body) == k
    && forall r :: r in s && KeyOf(r.body) == k ==> !Newer(r.body, x.body)
  }

  ghost predicate UniqueNewest(s: set<Record>, k: Key) {
    forall x, y :: IsNewest(s, k, x) && IsNewest(s, k, y) ==> x == y
  }

  function MergedAll(table: map<Key, Record>, rs: seq<Record>): map<Key, Record> {
    if rs == [] then table else Merged(MergedAll(table, rs[..|rs| - 1]), rs[|rs| - 1])
  }

  // rs lists exactly the records of s, each at least once.
  ghost predicate Lists(rs: seq<Record>, s: set<Record>) {
    forall r :: r in rs <==> r in s
  }

  // Merging records one after the other leaves a newest one under each of their keys.
  lemma {:induction false} MergedAllIsNewest(rs: seq<Record>, s: set<Record>, k: Key)
    requires Lists(rs, s)
    ensures
      var table := MergedAll(map[], rs);
      && (k in table <==> exists r :: r in s && KeyOf(r.body) == k)
      && (k in table ==> IsNewest(s, k, table[k]))
    decreases |rs|
  {
    hide KeyOf, Newer;
    if rs != [] {
      var front, last := rs[..|rs| - 1], rs[|rs| - 1];
      var s' := set r | r in front;
      assert rs == front + [last];
      assert s == s' + {last};
      MergedAllIsNewest(front, s', k);
      NewestOfOneMore(MergedAll(map[], front), s', k, last);
    }
  }

  lemma NewestOfOneMore(table: map<Key, Record>, s: set<Record>, k: Key, r: Record)
    requires k in table <==> exists x :: x in s && KeyOf(x.body) == k
    requires k in table ==> IsNewest(s, k, table[k])
    ensures k in Merged(table, r) <==> exists x :: x in s + {r} && KeyOf(x.body) == k
    ensures k in Merged(table, r) ==> IsNewest(s + {r}, k, Merged(table, r)[k])
  {
    hide KeyOf;
    if KeyOf(r.body) == k {
      assert r in s + {r};
    }
  }

  // The result of merging some records does not depend on order and repetition if and only if
  // no two different records are both newest under their key.
  lemma {:induction false} OrderIsIrrelevantIff(s: set<Record>)
    ensures (forall rs, rs' :: Lists(rs, s) && Lists(rs', s) ==> MergedAll(map[], rs) == MergedAll(map[], rs')) <==>
            (forall k: Key :: UniqueNewest(s, k))
  {
    hide MergedAll, Lists, IsNewest, UniqueNewest;
    if forall k: Key :: UniqueNewest(s, k) {
      forall rs, rs' | Lists(rs, s) && Lists(rs', s) ensures MergedAll(map[], rs) == MergedAll(map[], rs') {
        UniqueNewestDecides(s, rs, rs');
      }
    }
    forall k: Key | !UniqueNewest(s, k)
      ensures exists rs, rs' :: Lists(rs, s) && Lists(rs', s) && MergedAll(map[], rs) != MergedAll(map[], rs')
    {
      var rs, rs' := TieDecidesByOrder(s, k);
    }
  }

  lemma UniqueNewestDecides(s: set<Record>, rs: seq<Record>, rs': seq<Record>)
    requires forall k: Key :: UniqueNewest(s, k)
    requires Lists(rs, s) && Lists(rs', s)
    ensures MergedAll(map[], rs) == MergedAll(map[], rs')
  {
    hide MergedAll, Lists, IsNewest, KeyOf;
    var t, t' := MergedAll(map[], rs), MergedAll(map[], rs');
    forall k: Key ensures (k in t <==> k in t') && (k in t ==> t[k] == t'[k]) {
      MergedAllIsNewest(rs, s, k);
      MergedAllIsNewest(rs', s, k);
      assert UniqueNewest(s, k);
    }
  }

  // Two records that are both newest: each stays if it comes first.
  lemma TieDecidesByOrder(s: set<Record>, k: Key) returns (rs: seq<Record>, rs': seq<Record>)
    requires !UniqueNewest(s, k)
    ensures Lists(rs, s) && Lists(rs', s) && MergedAll(map[], rs) != MergedAll(map[], rs')
  {
    hide KeyOf, Newer, MergedAll;
    var x, y :| IsNewest(s, k, x) && IsNewest(s, k, y) && x != y;
    var all := Listing(s);
    rs, rs' := [x] + all, [y] + all;
    FirstOfTheNewestStays(s, k, x, all);
    FirstOfTheNewestStays(s, k, y, all);
  }

  lemma {:induction false} FirstOfTheNewestStays(s: set<Record>, k: Key, x: Record, rs: seq<Record>)
    requires IsNewest(s, k, x) && forall r :: r in rs ==> r in s
    ensures k in MergedAll(map[], [x] + rs) && MergedAll(map[], [x] + rs)[k] == x
    decreases |rs|
  {
    hide KeyOf, Newer;
    var all := [x] + rs;
    assert all[..|all| - 1] == if rs == [] then [] else [x] + rs[..|rs| - 1];
    if rs != [] {
      FirstOfTheNewestStays(s, k, x, rs[..|rs| - 1]);
    }
  }

  lemma {:induction false} Listing(s: set<Record>) returns (rs: seq<Record>)
    ensures Lists(rs, s)
    decreases |s|
  {
    if s == {} {
      rs := [];
    } else {
      var r :| r in s;
      rs := Listing(s - {r});
      rs := rs + [r];
    }
  }
}
