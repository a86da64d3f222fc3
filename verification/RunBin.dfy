/**
  RunBin: the extents of one run size.  Each extent's descriptor has a bitmap of its runs in use, and
  the bin maps the extents that still have a free run.
 */
module RunBin {
  import opened Basics
  import opened RunBits

  type Ext = nat

  const EXTENT_HOLD: nat := 1

  datatype Kind = Small | Medium

  /** The lowest free index from i on, n when there is none. */
  function LeastFrom(taken: set<nat>, i: nat, n: nat): (r: nat)
    requires i <= n
    ensures i <= r <= n && (r < n ==> r !in taken) && forall j | i <= j < r :: j in taken
    decreases n - i
  {
    if i == n || i !in taken then i else LeastFrom(taken, i + 1, n)
  }

  lemma LeastUnique(taken: set<nat>, i: nat, n: nat, r: nat)
    requires i <= r <= n && (r < n ==> r !in taken) && forall j | i <= j < r :: j in taken
    ensures LeastFrom(taken, i, n) == r
  {
    var q := LeastFrom(taken, i, n);
    assert q < r ==> q in taken;
    assert r < q ==> r in taken;
  }

  /** After the lowest free run is taken, looking for another from there on misses none. */
  lemma CheckFromTakenRun(taken: set<nat>, rid: nat, from: nat, n: nat)
    requires taken <= Ones(n) && rid == LeastFrom(taken, 0, n) < n && from <= rid
    ensures LeastFrom(taken + {rid}, from, n) == n <==> taken + {rid} == Ones(n)
  {
    var t, q := taken + {rid}, LeastFrom(taken + {rid}, from, n);
    if q == n {
      forall j: nat | j < n ensures j in t {
        if j < rid { assert j in taken; }
      }
    } else {
      assert q !in t && q in Ones(n);
    }
  }

  /** A small run's scan starts at the beginning of its word. */
  function ScanStart(kind: Kind, ind: nat): (from: nat)
    ensures from <= ind
  {
    if kind == Small then ind / UNIT * UNIT else ind
  }

  // The bin on values

  /** Runs in use per extent, and the extents in the bin. */
  datatype Shelf = Shelf(count: nat, runs: map<Ext, set<nat>>, open: set<Ext>)

  /** Every extent with a free run is in the bin. */
  ghost predicate Covers(s: Shelf) {
    && s.count > 1 && s.open <= s.runs.Keys
    && forall e {:trigger s.runs[e]} | e in s.runs ::
       s.runs[e] <= Ones(s.count) && (s.runs[e] != Ones(s.count) ==> e in s.open)
  }

  /** The bin holds exactly the extents with a free run. */
  ghost predicate Exact(s: Shelf) {
    Covers(s) && forall e {:trigger s.runs[e]} | e in s.open :: s.runs[e] != Ones(s.count)
  }

  function Offer(s: Shelf, e: Ext): Shelf {
    s.(runs := s.runs[e := {}], open := s.open + {e})
  }

  function Take(s: Shelf, e: Ext, rid: nat): Shelf
    requires e in s.runs
  {
    var t := s.runs[e] + {rid};
    s.(runs := s.runs[e := t], open := if t == Ones(s.count) then s.open - {e} else s.open)
  }

  /** A run comes back; an extent without runs in use leaves, unless it is the only one in the bin. */
  function Give(s: Shelf, e: Ext, rid: nat): Shelf
    requires e in s.runs
  {
    var t, open := s.runs[e] - {rid}, s.open + {e};
    if t == {} && |open| > EXTENT_HOLD then s.(runs := s.runs - {e}, open := open - {e})
    else s.(runs := s.runs[e := t], open := open)
  }

  /** The bin is told that one of the extent's runs is half used. */
  function Inform(s: Shelf, e: Ext): Shelf {
    s.(open := s.open + {e})
  }

  lemma OfferKeeps(s: Shelf, e: Ext)
    requires Exact(s) && e !in s.runs
    ensures Exact(Offer(s, e)) && e in Offer(s, e).open
  {
    assert 0 in Ones(s.count);
  }

  /** Taking the lowest free run of an extent in the bin: it was free, and the bin stays exact. */
  lemma TakeKeeps(s: Shelf, e: Ext)
    requires Exact(s) && e in s.open
    ensures var rid := LeastFrom(s.runs[e], 0, s.count);
            && rid < s.count && rid !in s.runs[e] && Exact(Take(s, e, rid))
            && (forall f | f in s.runs ::
               f in Take(s, e, rid).runs && Take(s, e, rid).runs[f] - (if f == e then {rid} else {}) == s.runs[f])
  {
    var taken := s.runs[e];
    var rid := LeastFrom(taken, 0, s.count);
    assert rid == s.count ==> taken == Ones(s.count);
    var t := Take(s, e, rid);
    assert forall f | f in t.runs && f != e :: t.runs[f] == s.runs[f];
  }

  /** An extent that leaves the bin was in it before, so the iterator that erases it is valid. */
  lemma GiveKeeps(s: Shelf, e: Ext, rid: nat)
    requires Covers(s) && e in s.runs && rid in s.runs[e]
    ensures Covers(Give(s, e, rid)) && (Exact(s) ==> Exact(Give(s, e, rid)))
    ensures e !in Give(s, e, rid).runs <==> s.runs[e] == {rid} && s.open + {e} != {e}
    ensures e !in Give(s, e, rid).runs ==> e in s.open
    ensures forall f | f in s.runs && f != e :: f in Give(s, e, rid).runs && Give(s, e, rid).runs[f] == s.runs[f]
    ensures e in Give(s, e, rid).runs ==> Give(s, e, rid).runs[e] == s.runs[e] - {rid}
  {
    var t, open, g := s.runs[e] - {rid}, s.open + {e}, Give(s, e, rid);
    assert rid in Ones(s.count) && rid !in t && t != Ones(s.count);
    assert t == {} <==> s.runs[e] == {rid};
    if |open| <= EXTENT_HOLD {
      OnlyMember(open, e);
    } else {
      assert open != {e};
    }
    if s.runs[e] == {rid} {
      assert (if rid == 0 then 1 else 0) in Ones(s.count);
      assert s.runs[e] != Ones(s.count);
    }
    assert forall f | f in g.runs && f != e :: g.runs[f] == s.runs[f];
  }

  lemma OnlyMember(x: set<Ext>, e: Ext)
    requires e in x && |x| <= 1
    ensures x == {e}
  {
    assert |x - {e}| == |x| - 1;
  }

  lemma InformKeeps(s: Shelf, e: Ext)
    requires Covers(s) && e in s.runs
    ensures Covers(Inform(s, e)) && (Exact(s) && s.runs[e] != Ones(s.count) ==> Inform(s, e) == s)
  {
    assert e in s.open ==> s.open + {e} == s.open;
  }

  function Reloaded(s: Shelf, e: Ext, bitmap: set<nat>): Shelf {
    s.(runs := s.runs[e := bitmap], open := if LeastFrom(bitmap, 0, s.count) == s.count then s.open else s.open + {e})
  }

  lemma ReloadKeeps(s: Shelf, e: Ext, bitmap: set<nat>)
    requires Exact(s) && e !in s.runs && bitmap <= Ones(s.count)
    ensures Exact(Reloaded(s, e, bitmap))
  {
    var q := LeastFrom(bitmap, 0, s.count);
    if q == s.count { assert bitmap == Ones(s.count); } else { assert q in Ones(s.count); }
  }

  /** What a bin's acquire leads to: an extent already in the bin, or a new one when it is empty. */
  ghost predicate Acquires(s: Shelf, supply: Option<Ext>, run: Option<(Ext, nat)>, s': Shelf) {
    if s.open == {} && supply.None? then run.None? && s' == s
    else
      var s1 := if s.open == {} then Offer(s, supply.value) else s;
      && run.Some? && run.value.0 in s1.open && run.value.0 in s1.runs
      && run.value.1 == LeastFrom(s1.runs[run.value.0], 0, s.count)
      && s' == Take(s1, run.value.0, run.value.1)
  }

  /** An extent's descriptor: one bit per small run, one byte per medium run. */
  class ExtentDesc {
    const kind: Kind
    const count: nat
    var small: seq<Word>   // the words the count needs
    var medium: seq<bool>
    ghost var runs: set<nat>   // the runs in use
    ghost var durable: set<nat>                // the bitmap that is certain to survive a crash
    ghost var moments: seq<set<set<nat>>>      // the bitmaps a crash might have left, moment by moment

    ghost predicate Valid()
      reads this
    {
      && (kind == Small ==> count % UNIT == 0 && Fits(small, count) && runs == TakenIn(small, count))
      && (kind == Medium ==> |medium| == count && runs == Busy(medium, count))
      && durable == runs
    }

    /**
      wait_write_back of the descriptor's line; before it a crash leaves the bitmap with the last store or
      without it
     */
    ghost method Await()
      modifies `durable, `moments
      ensures durable == runs && moments == old(moments) + [{old(durable), runs}, {runs}]
    {
      moments := moments + [{durable, runs}, {runs}];
      durable := runs;
    }

    /** construct: no run in use */
    constructor (kind: Kind, count: nat)
      requires count > 1 && (kind == Small ==> count % UNIT == 0)
      ensures Valid() && this.kind == kind && this.count == count && runs == {} && moments == []
    {
      this.kind, this.count := kind, count;
      small := seq(count / UNIT, _ => {});
      medium := seq(count, _ => false);
      runs, durable, moments := {}, {}, [];
    }

    /** srun_busy */
    method SmallBusy() returns (busy: bool)
      requires Valid() && kind == Small
      ensures busy <==> runs != {}
    {
      for uid := 0 to |small|
        invariant forall u | 0 <= u < uid :: small[u] == {}
      {
        if |small[uid]| != 0 {
          var b :| b in small[uid];
          BitIsRun(small, count, uid, b);
          return true;
        }
      }
      NoneSet(small, count);
      return false;
    }

    /** mrun_busy */
    method MediumBusy() returns (busy: bool)
      requires Valid() && kind == Medium
      ensures busy <==> runs != {}
    {
      for rid := 0 to count
        invariant forall r | 0 <= r < rid :: !medium[r]
      {
        if medium[rid] {
          assert rid in runs;
          return true;
        }
      }
      return false;
    }

    /** locate_fsrun looks from the start of the word that ind is in */
    method LocateSmall(ind: nat) returns (rid: nat)
      requires Valid() && kind == Small && ind < count
      ensures rid == LeastFrom(runs, ind / UNIT * UNIT, count)
    {
      var uid := ind / UNIT;
      while uid < |small|
        invariant ind / UNIT <= uid <= |small|
        invariant forall j: nat | ind / UNIT * UNIT <= j < uid * UNIT :: j in runs
      {
        var idx := Least0(small[uid], 0);
        WordScan(small, count, uid, idx, ind / UNIT * UNIT);
        if idx != UNIT {
          return uid * UNIT + idx;
        }
        uid := uid + 1;
      }
      assert count == |small| * UNIT;
      LeastUnique(runs, ind / UNIT * UNIT, count, count);
      return count;
    }

    /** locate_fmrun */
    method LocateMedium(ind: nat) returns (rid: nat)
      requires Valid() && kind == Medium && ind < count
      ensures rid == LeastFrom(runs, ind, count)
    {
      rid := ind;
      while rid < count
        invariant ind <= rid <= count && forall j | ind <= j < rid :: j in runs
      {
        if !medium[rid] {
          break;
        }
        rid := rid + 1;
      }
      LeastUnique(runs, ind, count, rid);
    }

    /** palloc_srun and palloc_mrun */
    method Palloc(rid: nat)
      requires Valid() && rid < count && rid !in runs
      modifies this
      ensures Valid() && runs == old(runs) + {rid} && moments == old(moments) + [{old(runs), runs}, {runs}]
    {
      if kind == Small {
        SetBit(small, count, rid);
        small := small[rid / UNIT := small[rid / UNIT] + {rid % UNIT}];
      } else {
        medium := medium[rid := true];
      }
      runs := runs + {rid};
      Await();
    }

    /** pdealloc_srun and pdealloc_mrun */
    method Pdealloc(rid: nat)
      requires Valid() && rid < count && rid in runs
      modifies this
      ensures Valid() && runs == old(runs) - {rid} && moments == old(moments) + [{old(runs), runs}, {runs}]
    {
      if kind == Small {
        ClearBit(small, count, rid);
        small := small[rid / UNIT := small[rid / UNIT] - {rid % UNIT}];
      } else {
        medium := medium[rid := false];
      }
      runs := runs - {rid};
      Await();
    }
  }

  lemma BitIsRun(words: seq<Word>, count: nat, u: nat, b: nat)
    requires Fits(words, count) && u < |words| && b in words[u]
    ensures u * UNIT + b in TakenIn(words, count)
  {
    var j := u * UNIT + b;
    assert j / UNIT == u && j % UNIT == b;
  }

  /** One word of the scan for a free run. */
  lemma WordScan(words: seq<Word>, count: nat, uid: nat, idx: nat, from: nat)
    requires Fits(words, count) && count % UNIT == 0 && uid < |words| && idx == Least0(words[uid], 0)
             && from <= uid * UNIT
    requires forall j: nat | from <= j < uid * UNIT :: j in TakenIn(words, count)
    ensures forall j: nat | from <= j < uid * UNIT + idx :: j in TakenIn(words, count)
    ensures idx != UNIT ==> uid * UNIT + idx == LeastFrom(TakenIn(words, count), from, count)
  {
    forall j: nat | uid * UNIT <= j < uid * UNIT + idx ensures j in TakenIn(words, count) {
      BitIsRun(words, count, uid, j - uid * UNIT);
    }
    if idx != UNIT {
      WordFree(words, count, uid, idx);
      LeastUnique(TakenIn(words, count), from, count, uid * UNIT + idx);
    }
  }

  lemma WordFree(words: seq<Word>, count: nat, uid: nat, idx: nat)
    requires Fits(words, count) && count % UNIT == 0 && uid < |words| && idx < UNIT && idx !in words[uid]
    ensures uid * UNIT + idx < count && uid * UNIT + idx !in TakenIn(words, count)
  {
    var r := uid * UNIT + idx;
    assert r / UNIT == uid && r % UNIT == idx;
  }

  /** The bin over the bitmaps of its extents, each as the set of runs that ExtentDesc proves it to be. */
  class RunBin {
    const kind: Kind
    const count: nat
    var runs: map<Ext, set<nat>>   // the descriptor of every extent acquired for this bin and not released
    var bins: set<Ext>             // the extents mapped

    ghost function State(): Shelf
      reads this
    {
      Shelf(count, runs, bins)
    }

    constructor (kind: Kind, count: nat)
      requires count > 1
      ensures this.kind == kind && this.count == count && State() == Shelf(count, map[], {}) && Exact(State())
    {
      this.kind, this.count, runs, bins := kind, count, map[], {};
    }

    /** Where the scan for another free run starts. */
    function From(ind: nat): (from: nat)
      ensures from <= ind
    {
      ScanStart(kind, ind)
    }

    /** srun_acquire and mrun_acquire: `supply` is what the extent case answers when it is asked */
    method Acquire(supply: Option<Ext>) returns (run: Option<(Ext, nat)>)
      requires Exact(State()) && (supply.Some? ==> supply.value !in runs)
      modifies this
      ensures Exact(State()) && Acquires(old(State()), supply, run, State())
    {
      if bins == {} {
        if supply.None? {
          return None;
        }
        OfferKeeps(State(), supply.value);
        runs, bins := runs[supply.value := {}], bins + {supply.value};
      }
      var e :| e in bins;
      TakeKeeps(State(), e);
      var rid := LeastFrom(runs[e], 0, count);
      CheckFromTakenRun(runs[e], rid, From(rid), count);
      runs := runs[e := runs[e] + {rid}];
      if LeastFrom(runs[e], From(rid), count) == count {
        bins := bins - {e};
      }
      run := Some((e, rid));
    }

    /** srun_release and mrun_release; without `release` the bin only learns of a half-used run */
    method Release(e: Ext, rid: nat, release: bool) returns (gone: bool)
      requires Covers(State()) && e in runs && rid in runs[e]
      modifies this
      ensures State() == (if release then Give(old(State()), e, rid) else Inform(old(State()), e)) && Covers(State())
      ensures gone <==> e !in runs
    {
      GiveKeeps(State(), e, rid);
      InformKeeps(State(), e);
      gone := false;
      var found := e in bins;
      if !found {
        bins := bins + {e};
      }
      if release {
        runs := runs[e := runs[e] - {rid}];
      }
      if runs[e] == {} && |bins| > EXTENT_HOLD {
        assert found && release;   // the iterator found before the insertion points at the extent
        bins, runs, gone := bins - {e}, runs - {e}, true;
      }
    }

    /** small_reload and medium_reload: a recorded extent goes into the bin if it has a free run */
    method Reload(e: Ext, bitmap: set<nat>)
      requires Exact(State()) && e !in runs && bitmap <= Ones(count)
      modifies this
      ensures Exact(State()) && State() == Reloaded(old(State()), e, bitmap)
    {
      runs := runs[e := bitmap];
      if LeastFrom(bitmap, 0, count) != count {
        bins := bins + {e};
      }
      ReloadKeeps(old(State()), e, bitmap);
    }
  }
}
