/**
  RunBits: which regions of a run have been handed out, as one inline word for up to 64 regions and
  as an array of words for more.  A 64-bit word is the set of positions of its ones.
 */
module RunBits {
  const UNIT: nat := 64

  type Word = set<nat>

  /** index_least0: the position of the lowest zero, UNIT when there is none. */
  function Least0(w: Word, i: nat): (n: nat)
    requires i <= UNIT
    ensures i <= n <= UNIT && (n < UNIT ==> n !in w) && forall j | i <= j < n :: j in w
    decreases UNIT - i
  {
    if i == UNIT || i !in w then i else Least0(w, i + 1)
  }

  /** The free indices from i on, in ascending order. */
  function Free(taken: set<nat>, i: nat, count: nat): seq<nat>
    requires i <= count
    decreases count - i
  {
    if i == count then [] else (if i in taken then [] else [i]) + Free(taken, i + 1, count)
  }

  lemma {:induction false} FreeMembers(taken: set<nat>, i: nat, count: nat)
    requires i <= count
    ensures forall j :: j in Free(taken, i, count) <==> i <= j < count && j !in taken
    ensures forall a, b | 0 <= a < b < |Free(taken, i, count)| :: Free(taken, i, count)[a] < Free(taken, i, count)[b]
    decreases count - i
  {
    if i < count {
      FreeMembers(taken, i + 1, count);
      var rest := Free(taken, i + 1, count);
      var all := Free(taken, i, count);
      assert all == (if i in taken then [] else [i]) + rest;
      if i !in taken {
        forall a, b | 0 <= a < b < |all| ensures all[a] < all[b] {
          assert all[b] == rest[b - 1] && rest[b - 1] in rest;
          if a > 0 { assert all[a] == rest[a - 1]; }
        }
      }
    }
  }

  /** The first free index is the one with everything below it taken. */
  lemma {:induction false} FreeFirst(taken: set<nat>, i: nat, count: nat, j: nat)
    requires i <= j <= count && (forall m | i <= m < j :: m in taken) && (j < count ==> j !in taken)
    ensures if j == count then Free(taken, i, count) == []
            else Free(taken, i, count) != [] && Free(taken, i, count)[0] == j
    decreases count - i
  {
    if i < j { FreeFirst(taken, i + 1, count, j); }
  }

  lemma {:induction false} FreeSame(a: set<nat>, b: set<nat>, i: nat, count: nat)
    requires i <= count && forall j | i <= j < count :: j in a <==> j in b
    ensures Free(a, i, count) == Free(b, i, count)
    decreases count - i
  {
    if i < count { FreeSame(a, b, i + 1, count); }
  }

  /** Taking the first free index leaves the others. */
  lemma {:induction false} FreeTake(taken: set<nat>, i: nat, count: nat)
    requires i <= count && Free(taken, i, count) != []
    ensures var f := Free(taken, i, count);
            Free(taken + {f[0]}, i, count) == f[1..]
    decreases count - i
  {
    var f := Free(taken, i, count);
    if i in taken {
      FreeTake(taken, i + 1, count);
    } else {
      FreeSame(taken, taken + {i}, i + 1, count);
    }
  }

  lemma {:induction false} FreeCount(taken: set<nat>, count: nat)
    requires forall j <- taken :: j < count
    ensures |Free(taken, 0, count)| + |taken| == count
  {
    FreeCountFrom(taken, 0, count);
  }

  lemma {:induction false} FreeCountFrom(taken: set<nat>, i: nat, count: nat)
    requires i <= count && forall j <- taken :: i <= j < count
    ensures |Free(taken, i, count)| + |taken| == count - i
    decreases count - i
  {
    if i < count {
      if i in taken {
        FreeCountFrom(taken - {i}, i + 1, count);
        FreeSame(taken, taken - {i}, i + 1, count);
      } else {
        FreeCountFrom(taken, i + 1, count);
      }
    } else {
      assert taken == {};
    }
  }

  function Min(a: int, b: int): int {
    if a < b then a else b
  }

  /** What fill takes: the lowest free indices, as many as asked for or as there are. */
  function Filled(taken: set<nat>, count: nat, want: nat): (r: seq<nat>)
  {
    var f := Free(taken, 0, count);
    f[..Min(want, |f|)]
  }

  function Elems(s: seq<nat>): set<nat> {
    set x | x in s
  }

  /** Fill hands out distinct free regions below the count, min(want, free) of them, the lowest ones. */
  lemma FillMeaning(taken: set<nat>, count: nat, want: nat)
    requires forall j <- taken :: j < count
    ensures var r := Filled(taken, count, want);
            && |r| == Min(want, count - |taken|)
            && (forall a, b | 0 <= a < b < |r| :: r[a] < r[b])
            && (forall x <- r :: x < count && x !in taken)
            && (forall x, y | x in r && 0 <= y < x && y !in taken :: y in r)
  {
    var f, r := Free(taken, 0, count), Filled(taken, count, want);
    assert (forall a, b | 0 <= a < b < |r| :: r[a] < r[b]) && (forall x <- r :: x < count && x !in taken) by {
      FreeMembers(taken, 0, count);
      assert forall x <- r :: x in f;
    }
    FreeCount(taken, count);
    forall x, y | x in r && y < x && y !in taken && 0 <= y ensures y in r { FillsLowest(taken, count, want, x, y); }
  }

  /** A free index below one that was handed out was handed out too. */
  lemma FillsLowest(taken: set<nat>, count: nat, want: nat, x: nat, y: nat)
    requires x in Filled(taken, count, want) && y < x && y !in taken
    ensures y in Filled(taken, count, want)
  {
    var f, r := Free(taken, 0, count), Filled(taken, count, want);
    FreeMembers(taken, 0, count);
    var a :| 0 <= a < |r| && r[a] == x;
    assert x == f[a] && x in f && y in f;
    var b :| 0 <= b < |f| && f[b] == y;
    assert b < a;
    assert r[b] == y;
  }

  /** The word with the n lowest bits set. */
  function Ones(n: nat): (w: Word)
    ensures |w| == n && forall i :: i in w <==> 0 <= i < n
  {
    if n == 0 then {} else Ones(n - 1) + {n - 1}
  }

  /** The indices whose bit is set in an array of words. */
  function TakenIn(words: seq<Word>, count: nat): set<nat> {
    set j: nat | j < count && j / UNIT < |words| && j % UNIT in words[j / UNIT]
  }

  /** Enough words for count bits, and no bit at or past it. */
  predicate Fits(words: seq<Word>, count: nat) {
    && |words| == (count + UNIT - 1) / UNIT
    && forall u {:trigger words[u]} | 0 <= u < |words| :: forall b <- words[u] :: b < UNIT && u * UNIT + b < count
  }

  lemma SetBit(words: seq<Word>, count: nat, i: nat)
    requires Fits(words, count) && i < count
    ensures var w := words[i / UNIT := words[i / UNIT] + {i % UNIT}];
            Fits(w, count) && TakenIn(w, count) == TakenIn(words, count) + {i}
  {
    var w := words[i / UNIT := words[i / UNIT] + {i % UNIT}];
    forall j: nat ensures j in TakenIn(w, count) <==> j == i || j in TakenIn(words, count) {
    }
  }

  lemma ClearBit(words: seq<Word>, count: nat, i: nat)
    requires Fits(words, count) && i < count
    ensures var w := words[i / UNIT := words[i / UNIT] - {i % UNIT}];
            Fits(w, count) && TakenIn(w, count) == TakenIn(words, count) - {i}
  {
    var w := words[i / UNIT := words[i / UNIT] - {i % UNIT}];
    forall j: nat ensures j in TakenIn(w, count) <==> j != i && j in TakenIn(words, count) {
    }
  }

  /** The full words for count bits: the last one as far as the count goes. */
  function FullWord(u: nat, count: nat): (w: Word)
    ensures forall b :: b in w <==> 0 <= b < UNIT && u * UNIT + b < count
  {
    if count <= u * UNIT then {} else if u == count / UNIT then Ones(count % UNIT) else Ones(UNIT)
  }

  lemma AllSet(words: seq<Word>, count: nat)
    requires |words| == (count + UNIT - 1) / UNIT
    requires forall u {:trigger words[u]} | 0 <= u < |words| :: words[u] == FullWord(u, count)
    ensures Fits(words, count) && TakenIn(words, count) == Ones(count)
  {
    forall j: nat | j < count ensures j in TakenIn(words, count) {
      var u := j / UNIT;
      assert u < |words| && words[u] == FullWord(u, count);
      assert u * UNIT + j % UNIT == j;
    }
  }

  lemma NoneSet(words: seq<Word>, count: nat)
    requires |words| == (count + UNIT - 1) / UNIT && forall u {:trigger words[u]} | 0 <= u < |words| :: words[u] == {}
    ensures Fits(words, count) && TakenIn(words, count) == {}
  {
  }

  /** The busy tokens among the first n. */
  function Busy(tokens: seq<bool>, n: nat): (w: Word)
    requires n <= |tokens|
    ensures forall i :: i in w <==> 0 <= i < n && tokens[i]
  {
    if n == 0 then {} else Busy(tokens, n - 1) + if tokens[n - 1] then {n - 1} else {}
  }

  class RunBits {
    const count: nat
    var alloc: nat
    var inline: Word            // the bits, for count <= UNIT
    const words: array<Word>    // the bits, for count > UNIT

    ghost predicate Valid()
      reads this, words
    {
      && (count <= UNIT ==> inline <= Ones(count))
      && (count > UNIT ==> Fits(words[..], count))
      && alloc == |Taken()|
    }

    /** The indices handed out. */
    ghost function Taken(): set<nat>
      reads this, words
    {
      if count <= UNIT then inline else TakenIn(words[..], count)
    }

    /** No region handed out, or all of them. */
    constructor (count: nat, empty: bool)
      ensures Valid() && this.count == count && Taken() == (if empty then Ones(count) else {}) && fresh(words)
    {
      this.count, alloc, inline := count, if empty then count else 0, {};
      var units := if count > UNIT then (count + UNIT - 1) / UNIT else 0;
      words := new Word[units](_ => if empty then Ones(UNIT) else {});
      new;
      if count > UNIT {
        FixLast(empty);
      } else if empty {
        inline := Ones(count);
      }
    }

    /** The last word of a fully handed-out run has only the bits the count allows. */
    method FixLast(empty: bool)
      requires count > UNIT && words.Length == (count + UNIT - 1) / UNIT && alloc == (if empty then count else 0)
      requires forall u | 0 <= u < words.Length :: words[u] == if empty then Ones(UNIT) else {}
      modifies words
      ensures Valid() && Taken() == (if empty then Ones(count) else {})
    {
      if empty {
        var remain := count % UNIT;
        if remain != 0 {
          words[count / UNIT] := Ones(remain);
        }
        forall u | 0 <= u < words.Length ensures words[..][u] == FullWord(u, count) {
        }
        AllSet(words[..], count);
      } else {
        NoneSet(words[..], count);
      }
    }

    /** Set one bit. */
    method Set(i: nat)
      requires Valid() && i < count && i !in Taken()
      modifies this, words
      ensures Valid() && Taken() == old(Taken()) + {i}
    {
      if count <= UNIT {
        inline := inline + {i};
      } else {
        SetBit(words[..], count, i);
        words[i / UNIT] := words[i / UNIT] + {i % UNIT};
        assert words[..] == old(words[..])[i / UNIT := old(words[..])[i / UNIT] + {i % UNIT}];
      }
      alloc := alloc + 1;
    }

    /** reload: the busy tokens of the run become its handed-out regions */
    method Reload(busy: seq<bool>)
      requires Valid() && Taken() == {} && |busy| == count
      modifies this, words
      ensures Valid() && Taken() == Busy(busy, count)
    {
      for ind := 0 to count
        invariant Valid() && Taken() == Busy(busy, ind)
      {
        ReloadOne(busy, ind);
      }
    }

    method ReloadOne(busy: seq<bool>, ind: nat)
      requires Valid() && |busy| == count && ind < count && Taken() == Busy(busy, ind)
      modifies this, words
      ensures Valid() && Taken() == Busy(busy, ind + 1)
    {
      if busy[ind] {
        Set(ind);
      }
    }

    /** dealloc_region and dealloc_large */
    method Dealloc(i: nat)
      requires Valid() && i in Taken()
      modifies this, words
      ensures Valid() && Taken() == old(Taken()) - {i}
    {
      if count <= UNIT {
        inline := inline - {i};
      } else {
        ClearBit(words[..], count, i);
        words[i / UNIT] := words[i / UNIT] - {i % UNIT};
        assert words[..] == old(words[..])[i / UNIT := old(words[..])[i / UNIT] - {i % UNIT}];
      }
      alloc := alloc - 1;
    }

    /** alloc_large: the lowest free region of a run that has one */
    method AllocLarge() returns (i: nat)
      requires Valid() && count < UNIT && alloc < count
      modifies this, words
      ensures Valid() && [i] == old(Filled(Taken(), count, 1)) && Taken() == old(Taken()) + {i}
    {
      i := Least0(inline, 0);
      FreeCount(inline, count);
      if i >= count { FreeFirst(inline, 0, count, count); }
      FreeFirst(inline, 0, count, i);
      Set(i);
    }

    /** One more region, the first free one. */
    method TakeFirst(i: nat, ghost taken0: set<nat>, ghost regions: seq<nat>, ghost filled: seq<nat>,
        ghost restock: nat)
      requires Valid() && Progress(taken0, Taken(), count, regions, filled, restock) && |filled| < restock
      requires i < count && i !in Taken() && AllBelow(i, Taken())
      modifies this, words
      ensures Valid() && Taken() == old(Taken()) + {i}
              && Progress(taken0, Taken(), count, regions, filled + [i], restock)
    {
      ProgressStep(taken0, Taken(), count, regions, filled, restock, i);
      Set(i);
    }

    method FillInline(regions: seq<nat>, restock: nat) returns (filled: seq<nat>)
      requires Valid() && count <= UNIT
      modifies this, words
      ensures Valid() && Done(old(Taken()), Taken(), count, regions, filled, restock)
    {
      filled := regions;
      ghost var taken0 := Taken();
      ProgressStart(taken0, count, regions, restock);
      while |filled| < restock
        invariant Valid() && Progress(taken0, Taken(), count, regions, filled, restock)
        decreases restock - |filled|
      {
        var idx := Least0(inline, 0);
        assert count < UNIT ==> count !in inline;
        if idx == count || idx == UNIT {
          FreeFirst(Taken(), 0, count, count);
          break;
        }
        TakeFirst(idx, taken0, regions, filled, restock);
        filled := filled + [idx];
      }
      ProgressEnd(taken0, Taken(), count, regions, filled, restock);
    }

    /** The lowest free index, in word uid if the words before it are full. */
    method NextFree(uid: nat, end: nat) returns (full: bool, i: nat)
      requires Valid() && count > UNIT && uid < words.Length && IsEnd(count, uid, end)
      requires AllBelow(uid * UNIT, Taken())
      ensures if full then AllBelow(uid * UNIT + end, Taken())
              else uid * UNIT <= i < count && i !in Taken() && AllBelow(i, Taken())
    {
      var idx := Least0(words[uid], 0);
      WordBelow(words[..], count, uid, idx, end);
      full, i := idx == end || idx == UNIT, uid * UNIT + idx;
    }

    /** Hand out the free bits of word uid, while more are wanted. */
    method FillWord(uid: nat, end: nat, given: seq<nat>, restock: nat, ghost taken0: set<nat>, ghost regions: seq<nat>)
      returns (filled: seq<nat>)
      requires Valid() && count > UNIT && uid < words.Length && IsEnd(count, uid, end)
      requires Progress(taken0, Taken(), count, regions, given, restock) && AllBelow(uid * UNIT, Taken())
      modifies this, words
      ensures Valid() && Progress(taken0, Taken(), count, regions, filled, restock)
      ensures |filled| < restock ==> AllBelow(uid * UNIT + end, Taken())
    {
      filled := given;
      while |filled| < restock
        invariant Valid() && Progress(taken0, Taken(), count, regions, filled, restock)
        invariant AllBelow(uid * UNIT, Taken())
        decreases restock - |filled|
      {
        var full, i := NextFree(uid, end);
        if full {
          return;
        }
        TakeFirst(i, taken0, regions, filled, restock);
        filled := filled + [i];
      }
    }

    /** One word's turn, and how far the next one goes; false after the last word. */
    method FillStep(uid: nat, end: nat, given: seq<nat>, restock: nat, ghost taken0: set<nat>, ghost regions: seq<nat>)
      returns (filled: seq<nat>, end': nat, more: bool)
      requires Valid() && count > UNIT && uid < words.Length && IsEnd(count, uid, end)
      requires Progress(taken0, Taken(), count, regions, given, restock) && AllBelow(uid * UNIT, Taken())
      modifies this, words
      ensures Valid() && Progress(taken0, Taken(), count, regions, filled, restock)
      ensures more ==> uid + 1 < words.Length && IsEnd(count, uid + 1, end')
      ensures more && |filled| < restock ==> AllBelow((uid + 1) * UNIT, Taken())
      ensures !more ==> |filled| >= restock || Free(Taken(), 0, count) == []
    {
      filled := FillWord(uid, end, given, restock, taken0, regions);
      var length := words.Length;
      assert length == (count + UNIT - 1) / UNIT;
      more, end' := NextEnd(count, length, uid, end);
      if |filled| < restock {
        WordEnd(count, length, uid, end, Taken());
      }
    }

    method FillWords(regions: seq<nat>, restock: nat) returns (filled: seq<nat>)
      requires Valid() && count > UNIT
      modifies this, words
      ensures Valid() && Done(old(Taken()), Taken(), count, regions, filled, restock)
    {
      filled := regions;
      ghost var taken0 := Taken();
      ProgressStart(taken0, count, regions, restock);
      var uid, end := 0, UNIT;
      while |filled| < restock
        invariant Valid() && Progress(taken0, Taken(), count, regions, filled, restock)
        invariant uid < words.Length && IsEnd(count, uid, end)
        invariant |filled| < restock ==> AllBelow(uid * UNIT, Taken())
        decreases words.Length - uid
      {
        var more;
        filled, end, more := FillStep(uid, end, filled, restock, taken0, regions);
        if !more {
          break;
        }
        uid := uid + 1;
      }
      ProgressEnd(taken0, Taken(), count, regions, filled, restock);
    }

    /** fill_regions: append the lowest free regions until there are `restock` or the run is exhausted */
    method FillRegions(regions: seq<nat>, restock: nat) returns (filled: seq<nat>)
      requires Valid() && alloc < count
      modifies this, words
      ensures Valid() && Done(old(Taken()), Taken(), count, regions, filled, restock)
    {
      if count <= UNIT {
        filled := FillInline(regions, restock);
      } else {
        filled := FillWords(regions, restock);
      }
    }
  }

  /** Word uid goes to `end`. */
  ghost predicate IsEnd(count: nat, uid: nat, end: nat) {
    end == Min(UNIT, count - uid * UNIT)
  }

  /** Whether there is a next word, and how far it goes. */
  method NextEnd(count: nat, length: nat, uid: nat, end: nat) returns (more: bool, end': nat)
    requires length == (count + UNIT - 1) / UNIT && uid < length && IsEnd(count, uid, end)
    ensures more <==> uid + 1 < length
    ensures more ==> IsEnd(count, uid + 1, end')
  {
    more, end' := uid + 1 < length, end;
    if uid + 1 == length - 1 {
      end' := count - (uid + 1) * UNIT;
    }
  }

  /** The words up to uid are full: so is everything before the next word, or the whole run. */
  lemma WordEnd(count: nat, length: nat, uid: nat, end: nat, taken: set<nat>)
    requires length == (count + UNIT - 1) / UNIT && uid < length && IsEnd(count, uid, end)
             && AllBelow(uid * UNIT + end, taken)
    ensures uid + 1 < length ==> AllBelow((uid + 1) * UNIT, taken)
    ensures uid + 1 == length ==> Free(taken, 0, count) == []
  {
    if uid + 1 == length { FreeFirst(taken, 0, count, count); }
  }

  ghost predicate AllBelow(n: nat, taken: set<nat>) {
    forall j: nat | j < n :: j in taken
  }

  /** The lowest zero of a word is the lowest free index when the words before it are full. */
  lemma WordBelow(words: seq<Word>, count: nat, uid: nat, idx: nat, end: nat)
    requires Fits(words, count) && uid < |words| && IsEnd(count, uid, end) && idx == Least0(words[uid], 0)
    requires AllBelow(uid * UNIT, TakenIn(words, count))
    ensures var i := uid * UNIT + idx;
            if idx == end || idx == UNIT then AllBelow(uid * UNIT + end, TakenIn(words, count))
            else i < count && i !in TakenIn(words, count) && AllBelow(i, TakenIn(words, count))
  {
    assert end < UNIT ==> end !in words[uid];
    forall j: nat | uid * UNIT <= j < uid * UNIT + Min(idx, end) ensures j in TakenIn(words, count) {
      assert j / UNIT == uid && j % UNIT == j - uid * UNIT;
    }
    if idx < end { assert (uid * UNIT + idx) / UNIT == uid && (uid * UNIT + idx) % UNIT == idx; }
  }

  /** So far the first |filled| - |regions| free indices were taken and appended. */
  ghost predicate Progress(taken0: set<nat>, taken: set<nat>, count: nat, regions: seq<nat>, filled: seq<nat>,
      restock: nat) {
    var f := Free(taken0, 0, count);
    && |regions| <= |filled| <= |regions| + |f| && (|filled| <= restock || filled == regions)
    && var k := |filled| - |regions|;
    && filled == regions + f[..k] && taken == taken0 + Elems(f[..k]) && Free(taken, 0, count) == f[k..]
  }

  /** The lowest free indices were appended, up to `restock` or exhaustion. */
  ghost predicate Done(taken0: set<nat>, taken: set<nat>, count: nat, regions: seq<nat>, filled: seq<nat>,
      restock: nat) {
    var more := Filled(taken0, count, if |regions| < restock then restock - |regions| else 0);
    filled == regions + more && taken == taken0 + Elems(more)
  }

  lemma ProgressStart(taken0: set<nat>, count: nat, regions: seq<nat>, restock: nat)
    ensures Progress(taken0, taken0, count, regions, regions, restock)
  {
    var f := Free(taken0, 0, count);
    assert f[..0] == [] && f[0..] == f && Elems([]) == {};
  }

  lemma ProgressStep(taken0: set<nat>, taken: set<nat>, count: nat, regions: seq<nat>, filled: seq<nat>, restock: nat,
      i: nat)
    requires Progress(taken0, taken, count, regions, filled, restock) && |filled| < restock
    requires i < count && i !in taken && AllBelow(i, taken)
    ensures Progress(taken0, taken + {i}, count, regions, filled + [i], restock)
  {
    var f, k := Free(taken0, 0, count), |filled| - |regions|;
    FreeFirst(taken, 0, count, i);
    FreeTake(taken, 0, count);
    assert f[k..][0] == f[k] == i;
    assert f[k..][1..] == f[k + 1..];
    assert f[..k + 1] == f[..k] + [i];
    assert Elems(f[..k + 1]) == Elems(f[..k]) + {i};
  }

  lemma ProgressEnd(taken0: set<nat>, taken: set<nat>, count: nat, regions: seq<nat>, filled: seq<nat>, restock: nat)
    requires Progress(taken0, taken, count, regions, filled, restock)
    requires |filled| >= restock || Free(taken, 0, count) == []
    ensures Done(taken0, taken, count, regions, filled, restock)
  {
    var f, k := Free(taken0, 0, count), |filled| - |regions|;
    assert |f[k..]| == |f| - k;
  }
}
