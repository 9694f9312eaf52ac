// SELECT ... ORDER BY key, id LIMIT n, stated by rank: a row is returned when fewer
// than n rows sort strictly before it. Both limited scans of the store use it.
module Window {
  import opened Base

  type Keys = map<Uuid, int>

  predicate Ahead(keys: Keys, a: Uuid, b: Uuid)
    requires a in keys && b in keys
  {
    keys[a] < keys[b] || (keys[a] == keys[b] && a < b)
  }

  function AheadOf(keys: Keys, b: Uuid): set<Uuid>
    requires b in keys
  {
    set a | a in keys && Ahead(keys, a, b)
  }

  function FirstN(keys: Keys, n: nat): set<Uuid> {
    set b | b in keys && |AheadOf(keys, b)| < n
  }

  // A limited scan: a set of at most n rows, full unless the rows ran out, and closed
  // under "sorts before".
  ghost predicate LimitedScan(keys: Keys, n: nat, s: set<Uuid>) {
    && s <= keys.Keys
    && |s| == (if |keys| <= n then |keys| else n)
    && forall a, b :: a in s && b in keys && b !in s ==> Ahead(keys, a, b)
  }

  lemma {:induction false} SubsetSize(a: set<Uuid>, b: set<Uuid>)
    requires a <= b
    ensures |a| <= |b|
    ensures |a| == |b| ==> a == b
  {
    if a != {} {
      var x :| x in a;
      SubsetSize(a - {x}, b - {x});
    } else if b != {} {
      assert |b| > 0;
    }
  }

  lemma {:induction false} LastExists(keys: Keys) returns (m: Uuid)
    requires |keys| > 0
    ensures m in keys
    ensures forall b :: b in keys && b != m ==> Ahead(keys, b, m)
    decreases |keys|
  {
    assert keys.Keys != {};
    var x :| x in keys.Keys;
    var rest := keys - {x};
    if |rest| == 0 {
      m := x;
      assert rest.Keys == {};
    } else {
      assert |rest| < |keys|;
      var y := LastExists(rest);
      m := if Ahead(keys, y, x) then x else y;
      forall b | b in keys && b != m ensures Ahead(keys, b, m) {
        if b != x && b != y {
          assert Ahead(rest, b, y);
        }
      }
    }
  }

  lemma LastRank(keys: Keys, m: Uuid)
    requires m in keys
    requires forall b :: b in keys && b != m ==> Ahead(keys, b, m)
    ensures AheadOf(keys, m) == keys.Keys - {m}
    ensures forall b :: b in keys && b != m ==> AheadOf(keys - {m}, b) == AheadOf(keys, b)
  {
    forall b | b in keys && b != m
      ensures AheadOf(keys - {m}, b) == AheadOf(keys, b)
    {
    }
  }

  lemma {:induction false} FirstNIsLimitedScan(keys: Keys, n: nat)
    ensures LimitedScan(keys, n, FirstN(keys, n))
    decreases |keys|
  {
    if |keys| == 0 {
      assert keys.Keys == {};
      assert FirstN(keys, n) == {};
    } else {
      var m := LastExists(keys);
      LastRank(keys, m);
      var rest := keys - {m};
      assert |rest| == |keys| - 1;
      FirstNIsLimitedScan(rest, n);
      assert |AheadOf(keys, m)| == |keys| - 1;
      assert FirstN(keys, n) == FirstN(rest, n) + (if |keys| - 1 < n then {m} else {});
      AddLast(keys, n, m, FirstN(rest, n));
    }
  }

  lemma AddLast(keys: Keys, n: nat, m: Uuid, part: set<Uuid>)
    requires m in keys && LimitedScan(keys - {m}, n, part) && |keys - {m}| == |keys| - 1
    requires forall b :: b in keys && b != m ==> Ahead(keys, b, m)
    ensures LimitedScan(keys, n, part + (if |keys| - 1 < n then {m} else {}))
  {
    var rest := keys - {m};
    var all := part + (if |keys| - 1 < n then {m} else {});
    if |keys| - 1 < n {
      SubsetSize(part, rest.Keys);
      assert all == keys.Keys;
    } else {
      forall a, b | a in all && b in keys && b !in all ensures Ahead(keys, a, b) {
        assert b != m ==> Ahead(rest, a, b);
      }
    }
  }

  // The rank definition is the only set that meets the description of a limited scan.
  lemma LimitedScanIsUnique(keys: Keys, n: nat, s: set<Uuid>)
    requires LimitedScan(keys, n, s)
    ensures s == FirstN(keys, n)
  {
    var t := FirstN(keys, n);
    FirstNIsLimitedScan(keys, n);
    if x :| x in s && x !in t {
      if y :| y in t && y !in s {
        assert false;
      } else {
        SubsetSize(t, s);
      }
    } else {
      SubsetSize(s, t);
    }
  }

  // A row left out of the scan proves the scan full, and full of rows ahead of it.
  lemma LeftOut(keys: Keys, n: nat, x: Uuid)
    requires x in keys && x !in FirstN(keys, n)
    ensures |FirstN(keys, n)| == n
    ensures FirstN(keys, n) <= AheadOf(keys, x)
  {
    FirstNIsLimitedScan(keys, n);
    var s := FirstN(keys, n);
    if |keys| <= n {
      SubsetSize(s, keys.Keys);
      assert false;
    }
  }
}
