/**
  Recovery after a crash: every busy object is handed, in whatever order the scan meets it, to the
  rebuild callback, which fills the index, releases losers and raises the version table.
 */
module Recovery {
  import opened Basics
  import opened RecordMemory

  const SLOTS: nat := 256

  type Region = nat

  /** A busy region: a key-value record, or an auxiliary object of a fast reboot. */
  datatype Object = Kv(rec: Record) | Aux

  datatype Scan = Scan(index: map<Key, Region>, ver: seq<nat>, dropped: set<Region>)

  function SlotOf(k: Key): nat {
    k.code % SLOTS
  }

  function Start(): Scan {
    Scan(map[], seq(SLOTS, _ => 0), {})
  }

  predicate Usable(objs: map<Region, Object>, r: Region) {
    r in objs && objs[r].Kv? && objs[r].rec.ctrl.Valid?
  }

  predicate Candidate(objs: map<Region, Object>, k: Key, r: Region) {
    Usable(objs, r) && objs[r].rec.key == k
  }

  function VersionOf(objs: map<Region, Object>, r: Region): nat
    requires Usable(objs, r)
  {
    objs[r].rec.ctrl.version
  }

  ghost predicate WellFormed(objs: map<Region, Object>, sc: Scan) {
    && |sc.ver| == SLOTS
    && forall k <- sc.index :: Candidate(objs, k, sc.index[k])
  }

  /** The rebuild callback on one object. */
  function Visit(objs: map<Region, Object>, sc: Scan, r: Region): (sc': Scan)
    requires r in objs && WellFormed(objs, sc)
    ensures WellFormed(objs, sc')
  {
    if objs[r].Aux? || objs[r].rec.ctrl.Invalid? then
      sc.(dropped := sc.dropped + {r})
    else
      var k, v := objs[r].rec.key, VersionOf(objs, r);
      if k in sc.index && VersionOf(objs, sc.index[k]) >= v then
        sc.(dropped := sc.dropped + {r})
      else
        var s := SlotOf(k);
        Scan(sc.index[k := r],
             if v > sc.ver[s] then sc.ver[s := v] else sc.ver,
             sc.dropped + if k in sc.index then {sc.index[k]} else {})
  }

  function ScanAll(objs: map<Region, Object>, order: seq<Region>): (sc: Scan)
    requires forall r <- order :: r in objs
    ensures WellFormed(objs, sc)
  {
    if order == [] then Start() else
    var n := |order| - 1;
    Visit(objs, ScanAll(objs, order[..n]), order[n])
  }

  /** order lists every busy object exactly once. */
  ghost predicate Enumerates(order: seq<Region>, objs: map<Region, Object>) {
    && (forall r :: r in order <==> r in objs)
    && Distinct(order)
  }

  /** order[i] is the winner for k: no candidate is newer, and those met earlier are older. */
  ghost predicate FirstBest(objs: map<Region, Object>, order: seq<Region>, k: Key, i: nat) {
    && i < |order|
    && Candidate(objs, k, order[i])
    && forall j | 0 <= j < |order| && Candidate(objs, k, order[j]) ::
         if j < i then VersionOf(objs, order[j]) < VersionOf(objs, order[i])
         else VersionOf(objs, order[j]) <= VersionOf(objs, order[i])
  }

  predicate InSlot(objs: map<Region, Object>, s: nat, r: Region) {
    Usable(objs, r) && SlotOf(objs[r].rec.key) == s
  }

  /** v is the largest version among the slot's records, 0 when it has none. */
  ghost predicate SlotMax(objs: map<Region, Object>, order: seq<Region>, s: nat, v: nat) {
    && (forall r | r in order && InSlot(objs, s, r) :: VersionOf(objs, r) <= v)
    && (v == 0 || exists r | r in order && InSlot(objs, s, r) :: VersionOf(objs, r) == v)
  }

  ghost predicate IndexIsBest(objs: map<Region, Object>, order: seq<Region>, sc: Scan) {
    && (forall k <- sc.index :: exists i: nat :: FirstBest(objs, order, k, i) && sc.index[k] == order[i])
    && (forall r | r in order && Usable(objs, r) :: objs[r].rec.key in sc.index)
  }

  ghost predicate DroppedRest(order: seq<Region>, sc: Scan) {
    forall r :: r in sc.dropped <==> r in order && r !in sc.index.Values
  }

  ghost predicate VersionsAreMax(objs: map<Region, Object>, order: seq<Region>, sc: Scan) {
    |sc.ver| == SLOTS && forall s | 0 <= s < SLOTS :: SlotMax(objs, order, s, sc.ver[s])
  }

  /** The scan's result, told without the scan. */
  ghost predicate Winners(objs: map<Region, Object>, order: seq<Region>, sc: Scan) {
    IndexIsBest(objs, order, sc) && DroppedRest(order, sc) && VersionsAreMax(objs, order, sc)
  }

  lemma VisitIndex(objs: map<Region, Object>, order: seq<Region>, sc: Scan, r: Region)
    requires r in objs && WellFormed(objs, sc) && IndexIsBest(objs, order, sc)
    ensures IndexIsBest(objs, order + [r], Visit(objs, sc, r))
  {
    var sc' := Visit(objs, sc, r);
    var all := order + [r];
    forall k <- sc'.index ensures exists i: nat :: FirstBest(objs, all, k, i) && sc'.index[k] == all[i] {
      if k in sc.index {
        var i: nat :| FirstBest(objs, order, k, i) && sc.index[k] == order[i];
        if sc'.index[k] == sc.index[k] {
          assert FirstBest(objs, all, k, i);
        } else {
          assert FirstBest(objs, all, k, |order|);
        }
      } else {
        assert forall q <- order :: !Candidate(objs, k, q);
        assert FirstBest(objs, all, k, |order|);
      }
    }
  }

  lemma VisitDropped(objs: map<Region, Object>, order: seq<Region>, sc: Scan, r: Region)
    requires r in objs && r !in order && WellFormed(objs, sc)
    requires DroppedRest(order, sc) && forall k <- sc.index :: sc.index[k] in order
    ensures DroppedRest(order + [r], Visit(objs, sc, r))
  {
    var sc' := Visit(objs, sc, r);
    if sc'.index != sc.index {
      var k := objs[r].rec.key;
      assert sc'.index == sc.index[k := r];
      forall q
        ensures q in sc'.index.Values <==> q == r || exists k' :: k' in sc.index && k' != k && sc.index[k'] == q
      {
        if q in sc'.index.Values {
          var k' :| k' in sc'.index && sc'.index[k'] == q;
        }
        if q == r { assert sc'.index[k] == q; }
        if k' :| k' in sc.index && k' != k && sc.index[k'] == q { assert sc'.index[k'] == q; }
      }
      forall q ensures q in sc'.dropped <==> q in order + [r] && q !in sc'.index.Values {
        if q in sc.index.Values {
          var k' :| k' in sc.index && sc.index[k'] == q;
          assert objs[q].rec.key == k';
        }
      }
    }
  }

  lemma VisitVersions(objs: map<Region, Object>, order: seq<Region>, sc: Scan, r: Region)
    requires r in objs && WellFormed(objs, sc)
    requires IndexIsBest(objs, order, sc) && VersionsAreMax(objs, order, sc)
    ensures VersionsAreMax(objs, order + [r], Visit(objs, sc, r))
  {
    var sc' := Visit(objs, sc, r);
    var all := order + [r];
    forall s | 0 <= s < SLOTS ensures SlotMax(objs, all, s, sc'.ver[s]) {
      assert SlotMax(objs, order, s, sc.ver[s]);
      if InSlot(objs, s, r) {
        var k := objs[r].rec.key;
        if k in sc.index {
          var i: nat :| FirstBest(objs, order, k, i) && sc.index[k] == order[i];
          assert InSlot(objs, s, order[i]);
        }
        assert r in all;
      }
      if sc'.ver[s] != 0 && sc'.ver[s] == sc.ver[s] {
        var q :| q in order && InSlot(objs, s, q) && VersionOf(objs, q) == sc.ver[s];
        assert q in all;
      }
    }
  }

  /** The index maps each key to its first-met newest record, the losers are dropped, slots hold maxima. */
  lemma {:induction false} ScanFindsWinners(objs: map<Region, Object>, order: seq<Region>)
    requires (forall r <- order :: r in objs) && Distinct(order)
    ensures Winners(objs, order, ScanAll(objs, order))
  {
    if order != [] {
      var n := |order| - 1;
      var init, r := order[..n], order[n];
      assert order == init + [r];
      ScanFindsWinners(objs, init);
      var sc := ScanAll(objs, init);
      VisitIndex(objs, init, sc, r);
      VisitDropped(objs, init, sc, r);
      VisitVersions(objs, init, sc, r);
    }
  }

  /** The callback driven over the busy objects in scan order. */
  method Rebuild(objs: map<Region, Object>, order: seq<Region>)
    returns (index: map<Key, Region>, ver: seq<nat>, released: set<Region>)
    requires Enumerates(order, objs)
    ensures Winners(objs, order, Scan(index, ver, released))
    ensures Scan(index, ver, released) == ScanAll(objs, order)
  {
    index, ver, released := map[], seq(SLOTS, _ => 0), {};
    for n := 0 to |order|
      invariant Scan(index, ver, released) == ScanAll(objs, order[..n])
    {
      var r := order[n];
      assert order[..n + 1][..n] == order[..n];
      if objs[r].Aux? || objs[r].rec.ctrl.Invalid? {
        released := released + {r};
      } else {
        var k, v := objs[r].rec.key, VersionOf(objs, r);
        if k in index && VersionOf(objs, index[k]) >= v {
          released := released + {r};
        } else {
          if k in index {
            released := released + {index[k]};
          }
          index := index[k := r];
          if v > ver[SlotOf(k)] {
            ver := ver[SlotOf(k) := v];
          }
        }
      }
    }
    assert order[..|order|] == order;
    ScanFindsWinners(objs, order);
  }

  // Order of the scan

  ghost predicate Newest(objs: map<Region, Object>, k: Key, r: Region) {
    Candidate(objs, k, r) && forall q | Candidate(objs, k, q) :: VersionOf(objs, q) <= VersionOf(objs, r)
  }

  /** No key has two records of its highest version. */
  ghost predicate NoTies(objs: map<Region, Object>) {
    forall k, r, q | Newest(objs, k, r) && Newest(objs, k, q) :: r == q
  }

  lemma IndexIsNewest(objs: map<Region, Object>, order: seq<Region>)
    requires Enumerates(order, objs)
    ensures var sc := ScanAll(objs, order);
            && Winners(objs, order, sc)
            && (forall k :: k in sc.index <==> exists r :: Candidate(objs, k, r))
            && (forall k <- sc.index :: Newest(objs, k, sc.index[k]))
  {
    var sc := ScanAll(objs, order);
    ScanFindsWinners(objs, order);
    forall k ensures k in sc.index <==> exists r :: Candidate(objs, k, r) {
      if r :| Candidate(objs, k, r) { assert r in order; }
    }
    forall k <- sc.index ensures Newest(objs, k, sc.index[k]) {
      var i: nat :| FirstBest(objs, order, k, i) && sc.index[k] == order[i];
      forall q | Candidate(objs, k, q) ensures VersionOf(objs, q) <= VersionOf(objs, order[i]) {
        assert q in order;
        var j: nat :| j < |order| && order[j] == q;
      }
    }
  }

  /** Which keys survive, at which version, and the version table never depend on the order. */
  lemma VersionsOrderFree(objs: map<Region, Object>, o1: seq<Region>, o2: seq<Region>)
    requires Enumerates(o1, objs) && Enumerates(o2, objs)
    ensures var a, b := ScanAll(objs, o1), ScanAll(objs, o2);
            && a.ver == b.ver
            && a.index.Keys == b.index.Keys
            && forall k <- a.index :: VersionOf(objs, a.index[k]) == VersionOf(objs, b.index[k])
  {
    SlotsOrderFree(objs, o1, o2);
    IndexIsNewest(objs, o1);
    IndexIsNewest(objs, o2);
    var a, b := ScanAll(objs, o1), ScanAll(objs, o2);
    forall k ensures k in a.index <==> k in b.index {
    }
  }

  lemma SlotsOrderFree(objs: map<Region, Object>, o1: seq<Region>, o2: seq<Region>)
    requires Enumerates(o1, objs) && Enumerates(o2, objs)
    ensures ScanAll(objs, o1).ver == ScanAll(objs, o2).ver
  {
    IndexIsNewest(objs, o1);
    IndexIsNewest(objs, o2);
    var a, b := ScanAll(objs, o1), ScanAll(objs, o2);
    forall s | 0 <= s < SLOTS ensures a.ver[s] == b.ver[s] {
      assert SlotMax(objs, o1, s, a.ver[s]) && SlotMax(objs, o2, s, b.ver[s]);
    }
  }

  lemma SameIndex(objs: map<Region, Object>, o1: seq<Region>, o2: seq<Region>)
    requires Enumerates(o1, objs) && Enumerates(o2, objs) && NoTies(objs)
    ensures ScanAll(objs, o1).index == ScanAll(objs, o2).index
  {
    var a, b := ScanAll(objs, o1).index, ScanAll(objs, o2).index;
    assert a.Keys == b.Keys by { VersionsOrderFree(objs, o1, o2); }
    forall k <- a ensures a[k] == b[k] {
      assert Newest(objs, k, a[k]) by { IndexIsNewest(objs, o1); }
      assert Newest(objs, k, b[k]) by { IndexIsNewest(objs, o2); }
    }
  }

  lemma SameResult(objs: map<Region, Object>, o1: seq<Region>, o2: seq<Region>)
    requires Enumerates(o1, objs) && Enumerates(o2, objs) && NoTies(objs)
    ensures ScanAll(objs, o1) == ScanAll(objs, o2)
  {
    var a, b := ScanAll(objs, o1), ScanAll(objs, o2);
    assert a.index == b.index by { SameIndex(objs, o1, o2); }
    assert a.ver == b.ver by { VersionsOrderFree(objs, o1, o2); }
    assert a.dropped == b.dropped by {
      assert DroppedRest(o1, a) by { ScanFindsWinners(objs, o1); }
      assert DroppedRest(o2, b) by { ScanFindsWinners(objs, o2); }
    }
  }

  lemma FirstWins(objs: map<Region, Object>, order: seq<Region>, k: Key)
    requires Enumerates(order, objs) && order != [] && Newest(objs, k, order[0])
    ensures k in ScanAll(objs, order).index && ScanAll(objs, order).index[k] == order[0]
  {
    ScanFindsWinners(objs, order);
    var sc := ScanAll(objs, order);
    var i: nat :| FirstBest(objs, order, k, i) && sc.index[k] == order[i];
  }

  ghost function ToFront(order: seq<Region>, i: nat): seq<Region>
    requires i < |order|
  {
    [order[i]] + order[..i] + order[i + 1..]
  }

  lemma ToFrontMember(order: seq<Region>, i: nat, r: Region)
    requires i < |order|
    ensures r in ToFront(order, i) <==> r in order
  {
    assert order == order[..i] + [order[i]] + order[i + 1..];
  }

  lemma ToFrontEnumerates(order: seq<Region>, objs: map<Region, Object>, i: nat)
    requires Enumerates(order, objs) && i < |order|
    ensures Enumerates(ToFront(order, i), objs)
  {
    var f := ToFront(order, i);
    forall r ensures r in f <==> r in objs { ToFrontMember(order, i, r); }
    forall a, b | 0 <= a < b < |f| ensures f[a] != f[b] {
      var a', b' := if a == 0 then i else if a <= i then a - 1 else a, if b <= i then b - 1 else b;
      assert f[a] == order[a'] && f[b] == order[b'];
    }
  }

  lemma {:induction false} EnumerationExists(objs: map<Region, Object>) returns (order: seq<Region>)
    ensures Enumerates(order, objs)
    decreases |objs|
  {
    order := [];
    if objs != map[] {
      var r :| r in objs;
      var rest := objs - {r};
      assert rest.Keys == objs.Keys - {r};
      var tail := EnumerationExists(rest);
      order := [r] + tail;
      assert forall q :: q in order <==> q == r || q in tail;
    }
  }

  /** The scan's outcome is independent of the order exactly when no key ties at its highest version. */
  lemma OrderIndependentIff(objs: map<Region, Object>)
    ensures (forall o1, o2 | Enumerates(o1, objs) && Enumerates(o2, objs) :: ScanAll(objs, o1) == ScanAll(objs, o2))
       <==> NoTies(objs)
  {
    if NoTies(objs) {
      forall o1, o2 | Enumerates(o1, objs) && Enumerates(o2, objs) ensures ScanAll(objs, o1) == ScanAll(objs, o2) {
        SameResult(objs, o1, o2);
      }
    } else {
      var k, r, q :| Newest(objs, k, r) && Newest(objs, k, q) && r != q;
      var order := EnumerationExists(objs);
      assert r in order && q in order;
      var i, j :| 0 <= i < |order| && order[i] == r && 0 <= j < |order| && order[j] == q;
      ToFrontEnumerates(order, objs, i);
      ToFrontEnumerates(order, objs, j);
      FirstWins(objs, ToFront(order, i), k);
      FirstWins(objs, ToFront(order, j), k);
      assert ScanAll(objs, ToFront(order, i)).index[k] != ScanAll(objs, ToFront(order, j)).index[k];
    }
  }

  /** What a second crash finds after n visits: any of the released regions may already be freed. */
  ghost predicate Interrupted(objs: map<Region, Object>, order: seq<Region>, n: nat, left: map<Region, Object>) {
    && Enumerates(order, objs) && n <= |order|
    && left.Keys <= objs.Keys && (forall r <- left :: left[r] == objs[r])
    && objs.Keys - ScanAll(objs, order[..n]).dropped <= left.Keys
  }

  lemma Survivor(objs: map<Region, Object>, order: seq<Region>, n: nat, left: map<Region, Object>, r: Region)
    returns (q: Region)
    requires Interrupted(objs, order, n, left) && Usable(objs, r)
    ensures Candidate(left, objs[r].rec.key, q) && VersionOf(objs, r) <= VersionOf(left, q)
  {
    var part := order[..n];
    var sc := ScanAll(objs, part);
    ScanFindsWinners(objs, part);
    var k := objs[r].rec.key;
    q := r;
    if r in sc.dropped {
      assert r in part && k in sc.index;
      var i: nat :| FirstBest(objs, part, k, i) && sc.index[k] == part[i];
      var j :| 0 <= j < |part| && part[j] == r;
      assert sc.index[k] !in sc.dropped;
      q := part[i];
    }
  }

  lemma RescanKey(objs: map<Region, Object>, order: seq<Region>, n: nat, left: map<Region, Object>, again: seq<Region>,
      k: Key)
    requires Interrupted(objs, order, n, left) && Enumerates(again, left)
    ensures var a, b := ScanAll(objs, order).index, ScanAll(left, again).index;
            && (k in a <==> k in b)
            && (k in a ==> VersionOf(objs, a[k]) == VersionOf(left, b[k]))
  {
    var a, b := ScanAll(objs, order).index, ScanAll(left, again).index;
    assert (k in a <==> exists r :: Candidate(objs, k, r))
           && (k in a ==> Newest(objs, k, a[k])) by { IndexIsNewest(objs, order); }
    assert (k in b <==> exists r :: Candidate(left, k, r))
           && (k in b ==> Newest(left, k, b[k])) by { IndexIsNewest(left, again); }
    if k in b {
      assert Candidate(objs, k, b[k]);
    }
    if k in a {
      var q := Survivor(objs, order, n, left, a[k]);
      assert Candidate(left, k, q);
    }
  }

  lemma RescanSlot(objs: map<Region, Object>, order: seq<Region>, n: nat, left: map<Region, Object>, again: seq<Region>,
      s: nat)
    requires Interrupted(objs, order, n, left) && Enumerates(again, left) && s < SLOTS
    ensures ScanAll(objs, order).ver[s] == ScanAll(left, again).ver[s]
  {
    var a, b := ScanAll(objs, order).ver, ScanAll(left, again).ver;
    assert SlotMax(objs, order, s, a[s]) by { ScanFindsWinners(objs, order); }
    assert SlotMax(left, again, s, b[s]) by { ScanFindsWinners(left, again); }
    if a[s] != 0 {
      var r :| r in order && InSlot(objs, s, r) && VersionOf(objs, r) == a[s];
      var q := Survivor(objs, order, n, left, r);
      assert InSlot(left, s, q);
    }
    if b[s] != 0 {
      var r :| r in again && InSlot(left, s, r) && VersionOf(left, r) == b[s];
      assert InSlot(objs, s, r);
    }
  }

  /** A second crash during recovery is harmless: scanning again finds the same keys, versions and version table. */
  lemma RescanAfterCrash(objs: map<Region, Object>, order: seq<Region>, n: nat, left: map<Region, Object>,
      again: seq<Region>)
    requires Interrupted(objs, order, n, left) && Enumerates(again, left)
    ensures var a, b := ScanAll(objs, order), ScanAll(left, again);
            && a.ver == b.ver
            && a.index.Keys == b.index.Keys
            && forall k <- a.index :: VersionOf(objs, a.index[k]) == VersionOf(left, b.index[k])
  {
    var a, b := ScanAll(objs, order), ScanAll(left, again);
    forall k
      ensures (k in a.index <==> k in b.index) && (k in a.index ==>
              VersionOf(objs, a.index[k]) == VersionOf(left, b.index[k]))
    {
      RescanKey(objs, order, n, left, again, k);
    }
    forall s | 0 <= s < SLOTS ensures a.ver[s] == b.ver[s] {
      RescanSlot(objs, order, n, left, again, s);
    }
  }

  // Any number of crashes during recovery

  /** A scan cut off by a crash after n visits, and the objects that are still there. */
  datatype CutScan = CutScan(order: seq<Region>, n: nat, left: map<Region, Object>)

  /** What the next scan finds. */
  function Remaining(objs: map<Region, Object>, cuts: seq<CutScan>): map<Region, Object> {
    if cuts == [] then objs else cuts[|cuts| - 1].left
  }

  /** One scan after the other is cut off, each working on what the one before has left. */
  ghost predicate CutOff(objs: map<Region, Object>, cuts: seq<CutScan>) {
    cuts == [] ||
    var n := |cuts| - 1;
    CutOff(objs, cuts[..n]) && Interrupted(Remaining(objs, cuts[..n]), cuts[n].order, cuts[n].n, cuts[n].left)
  }

  lemma {:induction false} RemainingIsPart(objs: map<Region, Object>, cuts: seq<CutScan>, r: Region)
    requires CutOff(objs, cuts) && r in Remaining(objs, cuts)
    ensures r in objs && Remaining(objs, cuts)[r] == objs[r]
  {
    if cuts != [] { RemainingIsPart(objs, cuts[..|cuts| - 1], r); }
  }

  /** Every valid record still has one of its key at least as new. */
  lemma {:induction false} SurvivorOfAll(objs: map<Region, Object>, cuts: seq<CutScan>, r: Region) returns (q: Region)
    requires CutOff(objs, cuts) && Usable(objs, r)
    ensures Candidate(Remaining(objs, cuts), objs[r].rec.key, q)
            && VersionOf(objs, r) <= VersionOf(Remaining(objs, cuts), q)
  {
    q := r;
    if cuts != [] {
      var n := |cuts| - 1;
      var p := SurvivorOfAll(objs, cuts[..n], r);
      q := Survivor(Remaining(objs, cuts[..n]), cuts[n].order, cuts[n].n, cuts[n].left, p);
    }
  }

  /** However often recovery is cut off, it ends with the same keys, versions and version table. */
  lemma {:induction false} RescanAfterCrashes(objs: map<Region, Object>, order: seq<Region>, cuts: seq<CutScan>,
      again: seq<Region>)
    requires Enumerates(order, objs) && CutOff(objs, cuts) && Enumerates(again, Remaining(objs, cuts))
    ensures var a, b := ScanAll(objs, order), ScanAll(Remaining(objs, cuts), again);
            && a.ver == b.ver
            && a.index.Keys == b.index.Keys
            && forall k <- a.index :: VersionOf(objs, a.index[k]) == VersionOf(Remaining(objs, cuts), b.index[k])
  {
    if cuts == [] {
      VersionsOrderFree(objs, order, again);
    } else {
      var n := |cuts| - 1;
      RescanAfterCrashes(objs, order, cuts[..n], cuts[n].order);
      RescanAfterCrash(Remaining(objs, cuts[..n]), cuts[n].order, cuts[n].n, cuts[n].left, again);
    }
  }
}
