/** The call pool of q931.c: a linked list of calls with distinct references. */
module Q931Pool {

  class Call {
    var cr: int
    var next: Call?

    constructor (cr: int)
      ensures this.cr == cr && next == null
    {
      this.cr := cr;
      next := null;
    }
  }

  /** The largest reference this side hands out. */
  function MaxRef(bri: bool): nat { if bri then 127 else 32767 }

  /** The reference tried after n. */
  function NextRef(bri: bool, n: nat): nat { if n + 1 > MaxRef(bri) then 1 else n + 1 }

  /** The reference tried k + 1 steps after n. */
  function RefAfter(bri: bool, n: nat, k: nat): nat {
    if k == 0 then NextRef(bri, n) else NextRef(bri, RefAfter(bri, n, k - 1))
  }

  lemma RefAfterNext(bri: bool, n: nat, k: nat)
    ensures RefAfter(bri, n, k + 1) == NextRef(bri, RefAfter(bri, n, k))
  {}

  /** How the reference appears in the pool: bit 15 marks the calls of this side. */
  function Own(n: nat): int { 0x8000 + n }

  /** After k steps the reference has gone round by k. */
  lemma {:induction false} RefAfterIs(bri: bool, n: nat, k: nat)
    requires n <= MaxRef(bri)
    ensures RefAfter(bri, n, k) == (n + k) % MaxRef(bri) + 1
    ensures 1 <= RefAfter(bri, n, k) <= MaxRef(bri)
  {
    if k > 0 {
      RefAfterIs(bri, n, k - 1);
    }
    RoundBasic(n + k);
    RoundPrimary(n + k);
  }

  lemma RoundBasic(x: nat)
    ensures x <= 127 ==> (if x + 1 > 127 then 1 else x + 1) == x % 127 + 1
    ensures x > 0 ==> (if (x - 1) % 127 + 2 > 127 then 1 else (x - 1) % 127 + 2) == x % 127 + 1
  {}

  lemma RoundPrimary(x: nat)
    ensures x <= 32767 ==> (if x + 1 > 32767 then 1 else x + 1) == x % 32767 + 1
    ensures x > 0 ==> (if (x - 1) % 32767 + 2 > 32767 then 1 else (x - 1) % 32767 + 2) == x % 32767 + 1
  {}

  /** Going round meets every reference. */
  lemma RefReached(bri: bool, n: nat, free: nat) returns (k: nat)
    requires n <= MaxRef(bri) && 1 <= free <= MaxRef(bri)
    ensures k < MaxRef(bri) && RefAfter(bri, n, k) == free
  {
    var m := MaxRef(bri);
    k := (free - 1 - n) % m;
    RefAfterIs(bri, n, k);
    assert (n + k) % m == free - 1;
  }

  function At(chain: seq<Call>, i: nat): Call? { if i < |chain| then chain[i] else null }

  /** A list without cycles, every reference in it once. */
  ghost predicate Linked(chain: seq<Call>)
    reads chain
  {
    && (forall i | 0 <= i < |chain| :: chain[i].next == At(chain, i + 1))
    && Distinct(chain)
  }

  ghost predicate Distinct(chain: seq<Call>)
    reads chain
  {
    forall i, j | 0 <= i < j < |chain| :: chain[i] != chain[j] && chain[i].cr != chain[j].cr
  }

  /** Every call leads to the next, but the one before call i leads past it. */
  ghost predicate Bypassed(chain: seq<Call>, i: nat)
    reads chain
  {
    forall k | 0 <= k < |chain| && k != i :: chain[k].next == At(chain, if k + 1 == i then k + 2 else k + 1)
  }

  lemma BypassLinks(chain: seq<Call>, i: nat)
    requires i < |chain| && Distinct(chain) && Bypassed(chain, i)
    ensures Linked(chain[..i] + chain[i + 1..])
    ensures At(chain[..i] + chain[i + 1..], 0) == At(chain, if i == 0 then 1 else 0)
  {
    DistinctWithout(chain, i);
    var rest := chain[..i] + chain[i + 1..];
    forall k | 0 <= k < |rest| ensures rest[k].next == At(rest, k + 1) {
      hide Distinct;
      if k < i {
        assert rest[k] == chain[k] && At(rest, k + 1) == At(chain, if k + 1 == i then k + 2 else k + 1);
      } else {
        assert rest[k] == chain[k + 1] && At(rest, k + 1) == At(chain, k + 2);
      }
    }
  }

  lemma DistinctWithout(chain: seq<Call>, i: nat)
    requires i < |chain| && Distinct(chain)
    ensures Distinct(chain[..i] + chain[i + 1..])
  {
    var rest := chain[..i] + chain[i + 1..];
    forall p, q | 0 <= p < q < |rest| ensures rest[p] != rest[q] && rest[p].cr != rest[q].cr {
      assert rest[p] == chain[if p < i then p else p + 1] && rest[q] == chain[if q < i then q else q + 1];
    }
  }

  /** Every call leads to the next, and the last to d. */
  ghost predicate Led(chain: seq<Call>, d: Call)
    reads chain
  {
    forall k | 0 <= k < |chain| :: chain[k].next == At(chain + [d], k + 1)
  }

  lemma LedLinks(chain: seq<Call>, d: Call)
    requires Distinct(chain) && Led(chain, d) && d !in chain && d.next == null && d.cr !in RefsOf(chain)
    ensures Linked(chain + [d]) && At(chain + [d], 0) == if chain == [] then d else At(chain, 0)
  {
    var more := chain + [d];
    forall k | 0 <= k < |more| ensures more[k].next == At(more, k + 1) {
      assert k < |chain| ==> more[k] == chain[k];
    }
    forall i, j | 0 <= i < j < |more| ensures more[i] != more[j] && more[i].cr != more[j].cr {
      assert more[i] == chain[i] && chain[i].cr in RefsOf(chain);
    }
  }

  /** The first k references tried after `from` are in use. */
  ghost predicate AllBusy(bri: bool, refs: set<int>, from: nat, k: nat) {
    forall q | 0 <= q < k :: Own(RefAfter(bri, from, q)) in refs
  }

  /** Reference n is the one tried k + 1 steps after `from`, and the first of them
      that is free. */
  ghost predicate IsFirstFree(bri: bool, refs: set<int>, from: nat, n: nat, k: nat) {
    n == RefAfter(bri, from, k) && Own(n) !in refs && AllBusy(bri, refs, from, k)
  }

  lemma OneMoreBusy(bri: bool, refs: set<int>, from: nat, k: nat)
    requires AllBusy(bri, refs, from, k) && Own(RefAfter(bri, from, k)) in refs
    ensures AllBusy(bri, refs, from, k + 1)
    ensures RefAfter(bri, from, k + 1) == NextRef(bri, RefAfter(bri, from, k))
  {
    RefAfterNext(bri, from, k);
    hide RefAfter, NextRef, Own;
  }

  /** The references of a list. */
  ghost function RefsOf(chain: seq<Call>): set<int>
    reads chain
  {
    set c | c in chain :: c.cr
  }

  class Pool {
    const bri: bool
    var callpool: Call?
    var cref: nat
    ghost var chain: seq<Call>

    /** The list is what chain says, ends, and holds every reference once. */
    ghost predicate Valid()
      reads this, chain
    {
      cref <= MaxRef(bri) && callpool == At(chain, 0) && Linked(chain)
    }

    /** The references in use. */
    ghost function Refs(): set<int>
      reads this, chain
    {
      RefsOf(chain)
    }

    constructor (bri: bool)
      ensures Valid() && chain == [] && this.bri == bri && cref == 0
    {
      this.bri := bri;
      callpool, cref, chain := null, 0, [];
    }

    /** The walk along the list: the call with this reference, or the last call. */
    method Search(cr: int) returns (cur: Call?, prev: Call?)
      requires Valid()
      ensures cur != null ==> cur in chain && cur.cr == cr
      ensures cur == null ==> cr !in Refs() && (if chain == [] then prev == null else prev == chain[|chain| - 1])
    {
      cur, prev := callpool, null;
      ghost var i := 0;
      while cur != null && cur.cr != cr
        invariant 0 <= i <= |chain|
        invariant cur == At(chain, i)
        invariant prev == if i > 0 then chain[i - 1] else null
        invariant forall k | 0 <= k < i :: chain[k].cr != cr
        decreases |chain| - i
      {
        prev := cur;
        cur := cur.next;
        i := i + 1;
      }
    }

    /** q931_getcall */
    method GetCall(cr: int) returns (cur: Call)
      requires Valid()
      modifies this, chain
      ensures Valid() && cref == old(cref) && cur in chain && cur.cr == cr
      ensures forall c | c in old(chain) :: c.cr == old(c.cr)
      ensures if cr in old(Refs()) then chain == old(chain) else fresh(cur) && chain == old(chain) + [cur]
    {
      var found, prev := Search(cr);
      if found != null {
        return found;
      }
      cur := new Call(cr);
      Append(cur, prev);
    }

    /** The last link leads to a new call. */
    method Lead(cur: Call, prev: Call?)
      requires Valid() && cur !in chain && cur.next == null && cur.cr !in Refs()
      requires if chain == [] then prev == null else prev == chain[|chain| - 1]
      modifies this`callpool, prev
      ensures Distinct(chain) && Led(chain, cur) && callpool == if chain == [] then cur else old(callpool)
      ensures cur.next == null && forall c | c in chain + [cur] :: c.cr == old(c.cr)
    {
      if prev != null {
        prev.next := cur;
      } else {
        callpool := cur;
      }
    }

    /** A new call goes to the end of the list. */
    method Append(cur: Call, prev: Call?)
      requires Valid() && cur !in chain && cur.next == null && cur.cr !in Refs()
      requires if chain == [] then prev == null else prev == chain[|chain| - 1]
      modifies this`callpool, this`chain, chain
      ensures Valid() && chain == old(chain) + [cur]
      ensures forall c | c in chain :: c.cr == old(c.cr)
    {
      hide Distinct, Linked, Led, MaxRef, At;
      Lead(cur, prev);
      LedLinks(chain, cur);
      chain := chain + [cur];
    }

    /** q931_new_call: the next reference, going round, that no call holds. It ends
        because one is free. */
    method NewCall() returns (cur: Call)
      requires Valid()
      requires exists n :: 1 <= n <= MaxRef(bri) && Own(n) !in Refs()
      modifies this, chain
      ensures Valid() && fresh(cur) && cur.cr == Own(cref) && chain == old(chain) + [cur]
      ensures forall c | c in old(chain) :: c.cr == old(c.cr)
      ensures exists k :: IsFirstFree(bri, old(Refs()), old(cref), cref, k)
    {
      hide Linked, RefsOf, AllBusy, IsFirstFree, MaxRef;
      ghost var n :| 1 <= n <= MaxRef(bri) && Own(n) !in Refs();
      ghost var k := NextFree(Refs(), n);
      cur := GetCall(0x8000 + cref);
    }

    ghost predicate InUse(refs: set<int>)
      reads this, chain
    {
      Valid() && Refs() == refs
    }

    /** One turn of the outer loop of q931_new_call: the next reference, and whether
        a call holds it. */
    method TryNext(ghost refs: set<int>) returns (busy: bool)
      requires InUse(refs)
      modifies this`cref
      ensures InUse(refs)
      ensures cref == NextRef(bri, old(cref)) && 1 <= cref
      ensures busy <==> Own(cref) in refs
    {
      Step();
      var cur, prev := Search(0x8000 + cref);
      busy := cur != null;
    }

    /** The outer loop of q931_new_call; reference `free` ends it at the latest. */
    method NextFree(ghost refs: set<int>, ghost free: nat) returns (ghost k: nat)
      requires InUse(refs) && 1 <= free <= MaxRef(bri) && Own(free) !in refs && cref <= MaxRef(bri)
      modifies this`cref
      ensures InUse(refs) && 1 <= cref && Own(cref) !in refs && IsFirstFree(bri, refs, old(cref), cref, k)
    {
      ghost var last := RefReached(bri, cref, free);
      ghost var start := cref;
      k := 0;
      assert RefAfter(bri, start, 0) == NextRef(bri, start) && AllBusy(bri, refs, start, 0);
      hide MaxRef, RefAfter, NextRef, AllBusy, InUse, Own;
      var busy := TryNext(refs);
      while busy
        invariant InUse(refs) && 1 <= cref && start == old(cref)
        invariant k <= last && cref == RefAfter(bri, start, k) && AllBusy(bri, refs, start, k)
        invariant busy <==> Own(cref) in refs
        decreases last - k
      {
        OneMoreBusy(bri, refs, start, k);
        busy := TryNext(refs);
        k := k + 1;
      }
    }

    /** The next reference, going round. */
    method Step()
      requires cref <= MaxRef(bri)
      modifies this`cref
      ensures cref == NextRef(bri, old(cref)) && 1 <= cref <= MaxRef(bri)
    {
      cref := cref + 1;
      if !bri {
        if cref > 32767 {
          cref := 1;
        }
      } else {
        if cref > 127 {
          cref := 1;
        }
      }
    }

    /** Whether a call is the one to be destroyed. */
    predicate Wanted(d: Call, cr: int, c: Call?)
      reads d
    {
      if c != null then d == c else d.cr == cr
    }

    /** The walk to the call to be destroyed. */
    method Locate(cr: int, c: Call?) returns (cur: Call?, prev: Call?, ghost i: nat)
      requires Valid()
      ensures i <= |chain| && cur == At(chain, i) && (if i == 0 then prev == null else prev == chain[i - 1])
      ensures cur != null ==> Wanted(cur, cr, c)
      ensures forall k | 0 <= k < i :: !Wanted(chain[k], cr, c)
    {
      cur, prev, i := callpool, null, 0;
      while cur != null && !Wanted(cur, cr, c)
        invariant 0 <= i <= |chain| && cur == At(chain, i) && (if i == 0 then prev == null else prev == chain[i - 1])
        invariant forall k | 0 <= k < i :: !Wanted(chain[k], cr, c)
        decreases |chain| - i
      {
        prev := cur;
        cur := cur.next;
        i := i + 1;
      }
    }

    /** The link to call i is led past it. */
    method Bypass(cur: Call, prev: Call?, ghost i: nat)
      requires Valid() && i < |chain| && cur == chain[i] && (if i == 0 then prev == null else prev == chain[i - 1])
      modifies this`callpool, prev
      ensures Distinct(chain) && Bypassed(chain, i) && callpool == At(chain, if i == 0 then 1 else 0)
      ensures forall d | d in chain :: d.cr == old(d.cr)
    {
      if prev != null {
        prev.next := cur.next;
      } else {
        callpool := cur.next;
      }
    }

    /** Call i is taken out of the list. */
    method Unlink(cur: Call, prev: Call?, ghost i: nat)
      requires Valid() && i < |chain| && cur == chain[i] && (if i == 0 then prev == null else prev == chain[i - 1])
      modifies this, chain
      ensures Valid() && cref == old(cref) && chain == old(chain)[..i] + old(chain)[i + 1..]
      ensures forall d | d in old(chain) :: d.cr == old(d.cr)
    {
      hide Distinct, Linked, Bypassed, MaxRef, At;
      Bypass(cur, prev, i);
      BypassLinks(chain, i);
      chain := chain[..i] + chain[i + 1..];
    }

    /** q931_destroy: by reference, or a particular call. */
    method Destroy(cr: int, c: Call?) returns (found: bool)
      requires Valid()
      modifies this, chain
      ensures Valid() && cref == old(cref)
      ensures forall d | d in old(chain) :: d.cr == old(d.cr)
      ensures found <==> exists i :: 0 <= i < |old(chain)| && old(Wanted(chain[i], cr, c))
      ensures !found ==> chain == old(chain)
      ensures found ==> exists i | 0 <= i < |old(chain)| ::
                          old(Wanted(chain[i], cr, c)) && chain == old(chain)[..i] + old(chain)[i + 1..]
    {
      var cur, prev, i := Locate(cr, c);
      if cur == null {
        return false;
      }
      Unlink(cur, prev, i);
      return true;
    }
  }

  // ------------------------------------------------------------ a free reference

  function OwnUpTo(n: nat): set<int> { set k | 1 <= k <= n :: Own(k) }

  lemma {:induction false} OwnUpToSize(n: nat)
    ensures |OwnUpTo(n)| == n
  {
    if n > 0 {
      OwnUpToSize(n - 1);
      assert OwnUpTo(n) == OwnUpTo(n - 1) + {Own(n)};
    }
  }

  lemma {:induction false} RefsSize(chain: seq<Call>)
    ensures |RefsOf(chain)| <= |chain|
  {
    if chain != [] {
      var n := |chain| - 1;
      RefsSize(chain[..n]);
      assert RefsOf(chain) == RefsOf(chain[..n]) + {chain[n].cr} by {
        forall r | r in RefsOf(chain) ensures r in RefsOf(chain[..n]) + {chain[n].cr} {
          var c :| c in chain && c.cr == r;
          if c != chain[n] { assert c in chain[..n]; }
        }
      }
    }
  }

  /** With fewer calls than references one is free, so a new call can be made. */
  lemma FreeReference(chain: seq<Call>, bri: bool)
    requires |chain| < MaxRef(bri)
    ensures exists n :: 1 <= n <= MaxRef(bri) && Own(n) !in RefsOf(chain)
  {
    OwnUpToSize(MaxRef(bri));
    RefsSize(chain);
    if OwnUpTo(MaxRef(bri)) <= RefsOf(chain) {
      SubsetSize(OwnUpTo(MaxRef(bri)), RefsOf(chain));
    }
    var r :| r in OwnUpTo(MaxRef(bri)) && r !in RefsOf(chain);
    var n :| 1 <= n <= MaxRef(bri) && Own(n) == r;
  }

  lemma SubsetSize(a: set<int>, b: set<int>)
    requires a <= b
    ensures |a| <= |b|
  {
    assert a + (b - a) == b && a * (b - a) == {};
  }
}
