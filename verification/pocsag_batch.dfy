/** make_pocsag_batch: a page is laid out in a list of batches, the current one
    reached through a moving pointer. */
module PocsagBatch {
  import opened BitRows
  import opened PocsagCode
  import opened PocsagPack
  import opened PocsagPage

  datatype Kind = Tone | Numeric | Alpha

  /** struct pocsag_batch; slot 2 j + k is frame[j][k]. */
  class Batch {
    var sc: Word32
    var frame: seq<Word32>
    var next: Batch?

    /** malloc and memset. */
    constructor ()
      ensures sc == Zero(32) && frame == seq(16, _ => Zero(32)) && next == null
    {
      sc := Zero(32);
      frame := seq(16, _ => Zero(32));
      next := null;
    }

    /** Every slot becomes idle. */
    method Clear()
      requires |frame| == 16
      modifies this`frame
      ensures frame == seq(16, _ => Idle())
    {
      hide Idle;
      var i := 0;
      while i < 8
        invariant 0 <= i <= 8 && |frame| == 16 && forall s | 0 <= s < 2 * i :: frame[s] == Idle()
      {
        var j := 0;
        while j < 2
          invariant 0 <= j <= 2 && |frame| == 16 && forall s | 0 <= s < 2 * i + j :: frame[s] == Idle()
        {
          frame := frame[2 * i + j := Idle()];
          j := j + 1;
        }
        i := i + 1;
      }
    }
  }

  /** A list of batches. */
  ghost predicate Linked(chain: seq<Batch>)
    reads set b | b in chain
  {
    && |chain| > 0 && chain[|chain| - 1].next == null
    && (forall i | 0 <= i < |chain| :: |chain[i].frame| == 16 && chain[i].sc == Synch())
    && (forall i | 0 <= i < |chain| - 1 :: chain[i].next == chain[i + 1])
    && (forall i, j | 0 <= i < j < |chain| :: chain[i] != chain[j])
  }

  /** All slots of a list, in order. */
  ghost function Contents(chain: seq<Batch>): (r: seq<Word32>)
    reads set b | b in chain
  {
    if chain == [] then [] else Contents(chain[..|chain| - 1]) + chain[|chain| - 1].frame
  }

  lemma {:induction false} ContentsLength(chain: seq<Batch>)
    requires forall i | 0 <= i < |chain| :: |chain[i].frame| == 16
    ensures |Contents(chain)| == 16 * |chain|
  {
    if chain != [] {
      ContentsLength(chain[..|chain| - 1]);
    }
  }

  /** A fresh batch, idle throughout. */
  method NewBatch() returns (b: Batch)
    ensures fresh(b) && b.sc == Synch() && b.next == null && b.frame == seq(16, _ => Idle())
  {
    b := new Batch();
    b.sc := Synch();
    b.next := null;
    b.Clear();
  }

  /** A codeword goes into a slot of the current batch. */
  method Put(ghost chain: seq<Batch>, cur: Batch, slot: nat, w: Word32)
    requires Linked(chain) && cur == chain[|chain| - 1] && slot < 16
    modifies cur`frame
    ensures Linked(chain)
    ensures |old(Contents(chain))| == 16 * |chain|
    ensures Contents(chain) == old(Contents(chain))[16 * (|chain| - 1) + slot := w]
  {
    ContentsLength(chain);
    ghost var front := chain[..|chain| - 1];
    ContentsLength(front);
    assert cur !in front;
    hide Synch;
    cur.frame := cur.frame[slot := w];
    assert Contents(front) == old(Contents(front));
  }

  /** A new batch behind the current one. */
  method Append(ghost chain: seq<Batch>, cur: Batch) returns (b: Batch)
    requires Linked(chain) && cur == chain[|chain| - 1]
    modifies cur`next
    ensures fresh(b) && Linked(chain + [b])
    ensures Contents(chain + [b]) == old(Contents(chain)) + seq(16, _ => Idle())
  {
    hide Synch, Idle;
    b := NewBatch();
    cur.next := b;
    ghost var longer := chain + [b];
    assert longer[..|chain|] == chain;
    forall i | 0 <= i < |longer| - 1 ensures longer[i].next == longer[i + 1] {
      if i < |chain| - 1 {
        assert chain[i] != chain[|chain| - 1];
        assert longer[i + 1] == chain[i + 1];
      }
    }
    SameContents(chain);
  }

  /** Links do not matter to the contents. */
  twostate lemma SameContents(chain: seq<Batch>)
    requires forall i | 0 <= i < |chain| :: chain[i].frame == old(chain[i].frame)
    ensures Contents(chain) == old(Contents(chain))
  {
    if chain != [] {
      SameContents(chain[..|chain| - 1]);
    }
  }

  /** pack_pogsag_string */
  method Pack(packed0: seq<Word32>, str: seq<Octet>, kind: Kind) returns (packed: seq<Word32>, mylen: nat)
    requires |packed0| == 100 && (kind == Alpha ==> |str| <= 284) && (kind == Numeric ==> |str| <= 500)
    ensures |packed| == 100 && mylen <= 100
    ensures MessageCodewords(packed[..mylen]) == MessageCodewords(PackedAs(str, kind))
  {
    match kind
    case Tone =>
      return packed0, 0;
    case Numeric =>
      packed, mylen := PackNumeric(packed0, str);
      NumberCodewords(packed[..mylen], str);
    case Alpha =>
      packed, mylen := PackAlpha(packed0, str);
      assert packed[..mylen] == Text(str);
  }

  function PackedAs(str: seq<Octet>, kind: Kind): seq<Word32> {
    match kind
    case Tone => []
    case Numeric => Number(str)
    case Alpha => Text(str)
  }

  /** The page after n of its message words. */
  ghost predicate Partly(slots: seq<Word32>, f: nat, a: Word32, words: seq<Word32>, n: nat) {
    && n <= |words| && f < 8 && |slots| == 16 * Batches(f, n)
    && slots == Slots(f, a, words[..n], Batches(f, n))
  }

  lemma OneMore(slots: seq<Word32>, f: nat, a: Word32, words: seq<Word32>, n: nat)
    requires Partly(slots, f, a, words, n) && n < |words|
    ensures var s := 2 * f + 1 + n;
            var wide := if s < |slots| then slots else slots + seq(16, _ => Idle());
            s < |wide| && Partly(wide[s := words[n]], f, a, words, n + 1)
  {
    hide Idle;
    var s := 2 * f + 1 + n;
    var wide := if s < |slots| then slots else slots + seq(16, _ => Idle());
    var goal := Slots(f, a, words[..n + 1], Batches(f, n + 1));
    assert |wide| == |goal|;
    forall i | 0 <= i < |goal| ensures wide[s := words[n]][i] == goal[i] {
      if i < |slots| && i != s {
        assert slots[i] == SlotAt(f, a, words[..n], i);
      }
    }
  }

  /** The address codeword, built in place as the switch over the tone does. */
  method Address(ric: Word32, toneno: int) returns (ok: bool, w: Word32)
    ensures ok == (0 <= toneno < 4)
    ensures ok ==> w == AddressCodeword(ric, toneno)
  {
    w := Zero(13) + ric[3..22];
    w := And(w, AddressMask());
    match toneno {
      case 0 =>
      case 1 => w := w[11 := true];
      case 2 => w := w[12 := true];
      case 3 => w := w[11 := true][12 := true];
      case _ => return false, w;
    }
    ok := true;
    assert w == AddressWord(ric, toneno);
    w := DoParityStuff(w);
  }

  /** 0xFFFFE700 */
  function AddressMask(): Word32 { seq(32, i => i >= 13 || 8 <= i < 11) }

  /** `<<= 11`, then the message bit. */
  method Message(packed: Word32) returns (w: Word32)
    ensures w == Codeword(MessageWord(packed))
  {
    w := Zero(11) + packed[..21];
    w := w[31 := true];
    assert w == MessageWord(packed);
    w := DoParityStuff(w);
  }

  lemma OneBatch(b: Batch)
    ensures Contents([b]) == b.frame
  {
    assert [b][..0] == [];
  }

  lemma FirstSlot(f: nat, a: Word32, words: seq<Word32>)
    requires f < 8
    ensures Partly(seq(16, _ => Idle())[2 * f := a], f, a, words, 0)
  {
    hide Idle;
    assert seq(16, _ => Idle())[2 * f := a] == Slots(f, a, [], 1);
  }

  lemma ChainLength(chain: seq<Batch>, f: nat, a: Word32, words: seq<Word32>, n: nat)
    requires Linked(chain) && Partly(Contents(chain), f, a, words, n)
    ensures |Contents(chain)| == 16 * |chain|
  {
    hide Synch;
    ContentsLength(chain);
  }

  lemma WholePage(slots: seq<Word32>, ric: Word32, toneno: nat, packed: seq<Word32>, same: seq<Word32>)
    requires toneno < 4 && MessageCodewords(packed) == MessageCodewords(same)
    requires Partly(slots, Frame(ric), AddressCodeword(ric, toneno), MessageCodewords(packed), |packed|)
    ensures slots == Page(ric, toneno, same)
  {
    var words := MessageCodewords(packed);
    assert words[..|packed|] == words;
    assert |packed| == |words| == |same|;
    hide AddressCodeword, MessageCodewords, Slots, Frame;
  }

  /** n words of the page are in the list that starts at `first`; `cur` is its last
      batch. */
  ghost predicate Standing(chain: seq<Batch>, first: Batch, cur: Batch, f: nat, a: Word32, words: seq<Word32>, n: nat)
    reads set b | b in chain
  {
    Linked(chain) && chain[0] == first && cur == chain[|chain| - 1] && Partly(Contents(chain), f, a, words, n)
  }

  /** Frame j, codeword k of the last batch is where word n goes. */
  ghost predicate Next(batches: nat, f: nat, n: nat, j: nat, k: nat) {
    j <= 8 && k <= 1 && (j == 8 ==> k == 0) && 16 * (batches - 1) + 2 * j + k == 2 * f + 1 + n
  }

  /** The body of the inner loop: word n, in a new batch if the last one is full. */
  method Place(ghost chain0: seq<Batch>, ghost first: Batch, cur0: Batch, j0: nat, k0: nat, word: Word32,
               ghost f: nat, ghost a: Word32, ghost words: seq<Word32>, ghost n: nat)
      returns (ghost chain: seq<Batch>, cur: Batch, j: nat, k: nat)
    requires Standing(chain0, first, cur0, f, a, words, n) && n < |words| && Next(|chain0|, f, n, j0, k0)
    requires words[n] == Codeword(MessageWord(word))
    modifies cur0
    ensures Standing(chain, first, cur, f, a, words, n + 1)
    ensures cur == cur0 || fresh(cur)
    ensures if j0 == 8 then j == 0 && k == 0 else j == j0 && k == k0
    ensures Next(|chain|, f, n, j, k)
  {
    chain, cur, j, k := chain0, cur0, j0, k0;
    hide Codeword, MessageWord, Contents, Partly;
    ChainLength(chain, f, a, words, n);
    OneMore(Contents(chain), f, a, words, n);
    if j == 8 {
      var b := Append(chain, cur);
      chain := chain + [b];
      j, k := 0, 0;
      cur := b;
    }
    var w := Message(word);
    Put(chain, cur, 2 * j + k, w);
  }

  lemma Stands(chain: seq<Batch>, first: Batch, cur: Batch, f: nat, a: Word32, words: seq<Word32>, n: nat)
    requires Standing(chain, first, cur, f, a, words, n)
    ensures Linked(chain) && chain[0] == first && Partly(Contents(chain), f, a, words, n)
  {}

  /** The loops that place the words. */
  method PlaceAll(ghost chain0: seq<Batch>, ghost first: Batch, cur0: Batch, curaddr: nat, packed: seq<Word32>,
                  mylen: nat, ghost a: Word32, ghost words: seq<Word32>) returns (ghost chain: seq<Batch>)
    requires Standing(chain0, first, cur0, curaddr, a, words, 0) && |chain0| == 1 && curaddr < 8
    requires mylen == |words| <= |packed| && forall i | 0 <= i < mylen :: words[i] == Codeword(MessageWord(packed[i]))
    modifies cur0
    ensures Linked(chain) && chain[0] == first && Partly(Contents(chain), curaddr, a, words, mylen)
  {
    hide *;
    var cur := cur0;
    chain := chain0;
    var i, k, j := 0, 1, curaddr;
    while i < mylen
      invariant 0 <= i <= mylen && (cur == cur0 || fresh(cur)) && Standing(chain, first, cur, curaddr, a, words, i)
      invariant i < mylen ==> 0 <= j <= 8 && 0 <= k <= 1 && (j == 8 ==> k == 0)
                              && 16 * (|chain| - 1) + 2 * j + k == 2 * curaddr + 1 + i
    {
      ghost var i0 := i;
      while k <= 1
        invariant i0 <= i <= mylen && (cur == cur0 || fresh(cur)) && Standing(chain, first, cur, curaddr, a, words, i)
        invariant 0 <= j <= 8 && 0 <= k <= 2 && 16 * (|chain| - 1) + 2 * j + k == 2 * curaddr + 1 + i
        invariant (j == 8 ==> k == 0) && (k == 2 ==> i0 < i)
        decreases 2 - k
      {
        if i == mylen {
          break;
        }
        NextIs(|chain|, curaddr, i, j, k);
        chain, cur, j, k := Place(chain, first, cur, j, k, packed[i], curaddr, a, words, i);
        NextIs(|chain|, curaddr, i, j, k);
        k := k + 1;
        i := i + 1;
      }
      k := 0;
      j := j + 1;
    }
    Stands(chain, first, cur, curaddr, a, words, mylen);
  }

  lemma NextIs(batches: nat, f: nat, n: nat, j: nat, k: nat)
    ensures Next(batches, f, n, j, k) <==>
              j <= 8 && k <= 1 && (j == 8 ==> k == 0) && 16 * (batches - 1) + 2 * j + k == 2 * f + 1 + n
  {}

  /** make_pocsag_batch. For a tone number other than 0 to 3 it returns null;
      otherwise a list of batches that hold the page. */
  method MakeBatch(ric: Word32, data: seq<Octet>, kind: Kind, toneno: int, packed0: seq<Word32>)
      returns (first: Batch?, ghost chain: seq<Batch>)
    requires |packed0| == 100 && (kind == Alpha ==> |data| <= 284) && (kind == Numeric ==> |data| <= 500)
    ensures first != null <==> 0 <= toneno < 4
    ensures first != null ==>
              && Linked(chain) && chain[0] == first
              && Contents(chain) == Page(ric, toneno, PackedAs(data, kind))
  {
    hide Synch, Idle, Codeword, AddressWord, MessageWord, PackedAs, Contents, Frame, Partly, Page, AddressCodeword;
    var cur := NewBatch();
    first, chain := null, [cur];
    OneBatch(cur);
    var ok, address := Address(ric, toneno);
    if !ok {
      return;
    }
    first := cur;
    var curaddr := Frame(ric);
    Put(chain, cur, 2 * curaddr, address);
    var packed, mylen := Pack(packed0, data, kind);
    ghost var words := MessageCodewords(packed[..mylen]);
    FirstSlot(curaddr, address, words);
    chain := PlaceAll(chain, first, cur, curaddr, packed, mylen, address, words);
    WholePage(Contents(chain), ric, toneno, packed[..mylen], PackedAs(data, kind));
  }
}
