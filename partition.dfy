/** Splitting the ledger by owner: the distinct owners in first-seen order, and
    each owner's rows in ledger order. */
module Partition {
  import opened Ledger

  predicate NoDuplicates(owners: seq<string>) {
    forall i, j | 0 <= i < j < |owners| :: owners[i] != owners[j]
  }

  predicate HasOwner(rows: seq<Row>, o: string) {
    exists k | 0 <= k < |rows| :: rows[k].owner == o
  }

  /** The distinct owners of the ledger in order of first appearance: a row's
      owner is added when no earlier row had it. */
  function Owners(rows: seq<Row>): seq<string> {
    if rows == [] then []
    else
      var seen := Owners(rows[..|rows| - 1]);
      var owner := rows[|rows| - 1].owner;
      if owner in seen then seen else seen + [owner]
  }

  /** The listed owners are exactly the owners of some row, each listed once. */
  lemma {:induction false} OwnersExact(rows: seq<Row>)
    ensures forall o :: o in Owners(rows) <==> HasOwner(rows, o)
    ensures NoDuplicates(Owners(rows))
  {
    if rows != [] {
      var prefix := rows[..|rows| - 1];
      var last := rows[|rows| - 1];
      OwnersExact(prefix);
      forall o
        ensures HasOwner(rows, o) <==> HasOwner(prefix, o) || last.owner == o
      {
        if HasOwner(rows, o) {
          var k :| 0 <= k < |rows| && rows[k].owner == o;
          if k < |prefix| {
            assert prefix[k] == rows[k];
          }
        }
        if HasOwner(prefix, o) {
          var k :| 0 <= k < |prefix| && prefix[k].owner == o;
          assert rows[k] == prefix[k];
        }
      }
    }
  }

  /** The rows of one owner, in ledger order. */
  function RowsOf(rows: seq<Row>, o: string): seq<Row> {
    if rows == [] then []
    else
      var last := rows[|rows| - 1];
      if last.owner == o then RowsOf(rows[..|rows| - 1], o) + [last] else RowsOf(rows[..|rows| - 1], o)
  }

  /** An owner's group holds exactly the ledger rows with that owner. */
  lemma {:induction false} RowsOfExact(rows: seq<Row>, o: string)
    ensures forall r :: r in RowsOf(rows, o) <==> r in rows && r.owner == o
  {
    if rows != [] {
      var prefix := rows[..|rows| - 1];
      RowsOfExact(prefix, o);
      assert rows == prefix + [rows[|rows| - 1]];
    }
  }

  /** Every listed owner has at least one row. */
  lemma OwnersHaveRows(rows: seq<Row>, o: string)
    requires o in Owners(rows)
    ensures RowsOf(rows, o) != []
  {
    OwnersExact(rows);
    RowsOfExact(rows, o);
    var k :| 0 <= k < |rows| && rows[k].owner == o;
    assert rows[k] in RowsOf(rows, o);
  }

  /** Splits the ledger: first collects the owners (skipping the membership scan
      when a row repeats the previous row's owner), then gathers each owner's rows. */
  method SplitByOwner(rows: seq<Row>) returns (owners: seq<string>, package: map<string, seq<Row>>)
    ensures owners == Owners(rows)
    ensures package.Keys == set o | o in owners
    ensures forall o | o in package :: package[o] == RowsOf(rows, o)
  {
    var found: seq<string> := [];
    var lastIteration: Option<string> := None;
    var k := 0;
    while k < |rows|
      invariant 0 <= k <= |rows|
      invariant found == Owners(rows[..k])
      invariant lastIteration == if k == 0 then None else Some(rows[k - 1].owner)
    {
      var owner := rows[k].owner;
      assert rows[..k + 1][..k] == rows[..k];
      if lastIteration != Some(owner) {
        var hasFound := false;
        var j := 0;
        while j < |found|
          invariant 0 <= j <= |found|
          invariant hasFound <==> owner in found[..j]
        {
          if owner == found[j] {
            hasFound := true;
          }
          assert found[..j + 1] == found[..j] + [found[j]];
          j := j + 1;
        }
        assert found[..j] == found;
        if !hasFound {
          found := found + [owner];
        }
      } else {
        OwnersExact(rows[..k]);
        assert HasOwner(rows[..k], owner) by {
          assert rows[..k][k - 1].owner == owner;
        }
      }
      lastIteration := Some(owner);
      k := k + 1;
    }
    assert rows[..k] == rows;

    package := map[];
    var i := 0;
    while i < |found|
      invariant 0 <= i <= |found|
      invariant package.Keys == set o | o in found[..i]
      invariant forall o | o in package :: package[o] == RowsOf(rows, o)
    {
      var owner := found[i];
      var dat: seq<Row> := [];
      var j := 0;
      while j < |rows|
        invariant 0 <= j <= |rows|
        invariant dat == RowsOf(rows[..j], owner)
      {
        assert rows[..j + 1][..j] == rows[..j];
        if rows[j].owner == owner {
          dat := dat + [rows[j]];
        }
        j := j + 1;
      }
      assert rows[..j] == rows;
      package := package[owner := dat];
      assert found[..i + 1] == found[..i] + [owner];
      i := i + 1;
    }
    assert found[..i] == found;
    owners := found;
  }

  /** The owners of a ledger prefix come first among the owners of the whole
      ledger: owners are listed in the order they are first met. */
  lemma {:induction false} OwnersGrowInOrder(rows: seq<Row>, k: nat)
    requires k <= |rows|
    ensures Owners(rows[..k]) <= Owners(rows)
    decreases |rows|
  {
    if k < |rows| {
      var prefix := rows[..|rows| - 1];
      assert prefix[..k] == rows[..k];
      OwnersGrowInOrder(prefix, k);
    } else {
      assert rows[..k] == rows;
    }
  }

  /** The rows of an owner within a ledger prefix come first among that owner's
      rows in the whole ledger: each group keeps ledger order. */
  lemma {:induction false} RowsOfGrowInOrder(rows: seq<Row>, k: nat, o: string)
    requires k <= |rows|
    ensures RowsOf(rows[..k], o) <= RowsOf(rows, o)
    decreases |rows|
  {
    if k < |rows| {
      var prefix := rows[..|rows| - 1];
      assert prefix[..k] == rows[..k];
      RowsOfGrowInOrder(prefix, k, o);
    } else {
      assert rows[..k] == rows;
    }
  }

  /** The groups of the listed owners, one after another. */
  function Regroup(owners: seq<string>, rows: seq<Row>): seq<Row> {
    if owners == [] then []
    else Regroup(owners[..|owners| - 1], rows) + RowsOf(rows, owners[|owners| - 1])
  }

  lemma {:induction false} RegroupAppendRow(owners: seq<string>, rows: seq<Row>, r: Row)
    requires NoDuplicates(owners)
    ensures multiset(Regroup(owners, rows + [r]))
         == multiset(Regroup(owners, rows)) + if r.owner in owners then multiset{r} else multiset{}
  {
    if owners != [] {
      var init := owners[..|owners| - 1];
      var o := owners[|owners| - 1];
      assert owners == init + [o];
      RegroupAppendRow(init, rows, r);
      assert (rows + [r])[..|rows|] == rows;
      assert r.owner in owners <==> r.owner in init || r.owner == o;
      assert o !in init;
    }
  }

  lemma RowsOfUnlisted(rows: seq<Row>, o: string)
    requires o !in Owners(rows)
    ensures RowsOf(rows, o) == []
  {
    OwnersExact(rows);
    RowsOfExact(rows, o);
  }

  /** Splitting loses and duplicates nothing: the groups of all owners together
      hold exactly the ledger's rows, each as often as it occurs. */
  lemma {:induction false} RegroupIsPermutation(rows: seq<Row>)
    ensures multiset(Regroup(Owners(rows), rows)) == multiset(rows)
  {
    if rows != [] {
      var prefix := rows[..|rows| - 1];
      var r := rows[|rows| - 1];
      var seen := Owners(prefix);
      assert rows == prefix + [r];
      RegroupIsPermutation(prefix);
      OwnersExact(prefix);
      RegroupAppendRow(seen, prefix, r);
      if r.owner in seen {
        assert Owners(rows) == seen;
      } else {
        var all := seen + [r.owner];
        assert Owners(rows) == all;
        assert all[..|all| - 1] == seen;
        assert Regroup(all, rows) == Regroup(seen, rows) + RowsOf(rows, r.owner);
        RowsOfUnlisted(prefix, r.owner);
        assert RowsOf(rows, r.owner) == [r];
      }
    }
  }
}
