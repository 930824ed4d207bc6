/** The multicast forwarding entries as one flat list, newest first, and the way a
    hash index splits that list into buckets. */
module McastIndex {
  import opened Options

  const HASHSIZE: nat := 256
  const ANY_IFACE: int := -2

  datatype Entry = Entry(src: nat, dst: nat, slot: int, iif: int)

  // ----- the hash

  function Xor(a: nat, b: nat): nat {
    if a == 0 && b == 0 then 0 else 2 * Xor(a / 2, b / 2) + if a % 2 == b % 2 then 0 else 1
  }

  /** Folds the 32 bits of `src ^ dst` into 8. */
  function Hash(src: nat, dst: nat): (h: nat)
    ensures h < HASHSIZE
  {
    var s := Xor(src, dst);
    var t := Xor(s, s / 0x1_0000);
    Xor(t, t / 0x100) % 0x100
  }

  function Byte(s: nat, unit: nat): nat
    requires unit > 0
  {
    s / unit % 0x100
  }

  /** The low `k` bits of a number, and the bits above them. */
  function Low(a: nat, k: nat): nat {
    if k == 0 then 0 else 2 * Low(a / 2, k - 1) + a % 2
  }

  function High(a: nat, k: nat): nat {
    if k == 0 then a else High(a / 2, k - 1)
  }

  lemma XorHalves(a: nat, b: nat)
    ensures Xor(a, b) == 2 * Xor(a / 2, b / 2) + if a % 2 == b % 2 then 0 else 1
  {
  }

  lemma LowHighIs(a: nat, k: nat)
    ensures Low(a, k) == if k == 0 then 0 else 2 * Low(a / 2, k - 1) + a % 2
    ensures High(a, k) == if k == 0 then a else High(a / 2, k - 1)
  {
  }

  lemma XorOfZeros()
    ensures Xor(0, 0) == 0
  {
  }

  lemma {:induction false} XorByBits(a: nat, b: nat, k: nat)
    ensures Low(Xor(a, b), k) == Xor(Low(a, k), Low(b, k))
    ensures High(Xor(a, b), k) == Xor(High(a, k), High(b, k))
  {
    LowHighIs(a, k);
    LowHighIs(b, k);
    LowHighIs(Xor(a, b), k);
    XorHalves(a, b);
    XorOfZeros();
    hide Xor, Low, High;
    if k > 0 {
      XorByBits(a / 2, b / 2, k - 1);
      XorHalves(Low(a, k), Low(b, k));
    }
  }

  lemma TwoBits(a: nat)
    ensures Low(a, 2) == a % 4 && High(a, 2) == a / 4 && Power(2) == 4 && Power(4) == 0x10
  {
    assert Low(a / 2, 1) == a / 2 % 2 && High(a / 2, 1) == a / 4;
    assert Power(2) == 4;
  }

  lemma FourBits(a: nat)
    ensures Low(a, 4) == a % 0x10 && High(a, 4) == a / 0x10
  {
    hide Low, High, Power;
    TwoBits(a);
    TwoBits(a / 4);
    LowHighAdd(a, 2, 2);
  }

  lemma EightBits(a: nat)
    ensures Low(a, 8) == a % 0x100 && High(a, 8) == a / 0x100
  {
    hide Low, High, Power;
    TwoBits(a);
    FourBits(a);
    FourBits(a / 0x10);
    LowHighAdd(a, 4, 4);
  }

  function Power(k: nat): nat {
    if k == 0 then 1 else 2 * Power(k - 1)
  }

  lemma {:induction false} LowHighAdd(a: nat, j: nat, k: nat)
    ensures High(a, j + k) == High(High(a, j), k)
    ensures Low(a, j + k) == Low(a, j) + Power(j) * Low(High(a, j), k)
  {
    if j > 0 {
      LowHighAdd(a / 2, j - 1, k);
      TwiceProduct(Power(j - 1), Low(High(a / 2, j - 1), k));
    }
  }

  lemma TwiceProduct(p: nat, l: nat)
    ensures 2 * p * l == 2 * (p * l)
  {
  }

  /** The two folding steps leave the exclusive or of the four bytes of `src ^ dst`. */
  lemma HashFoldsBytes(src: nat, dst: nat)
    ensures var s := Xor(src, dst);
      Hash(src, dst) == Xor(Xor(Byte(s, 1), Byte(s, 0x1_0000)), Xor(Byte(s, 0x100), Byte(s, 0x100_0000)))
  {
    hide Xor, Low, High;
    var s := Xor(src, dst);
    var u := s / 0x1_0000;
    var t := Xor(s, u);
    LowXor(t, t / 0x100);
    LowXor(s, u);
    HighXor(s, u);
    LowXor(s / 0x100, u / 0x100);
  }

  lemma LowXor(a: nat, b: nat)
    ensures Xor(a, b) % 0x100 == Xor(a % 0x100, b % 0x100)
  {
    hide Xor, Low, High;
    XorByBits(a, b, 8);
    EightBits(a);
    EightBits(b);
    EightBits(Xor(a, b));
  }

  lemma HighXor(a: nat, b: nat)
    ensures Xor(a, b) / 0x100 == Xor(a / 0x100, b / 0x100)
  {
    hide Xor, Low, High;
    XorByBits(a, b, 8);
    EightBits(a);
    EightBits(b);
    EightBits(Xor(a, b));
  }

  // ----- one flat list

  predicate OnIface(e: Entry, iface: int) {
    e.iif == iface || iface == ANY_IFACE
  }

  predicate Matches(e: Entry, src: nat, dst: nat, iface: int) {
    e.src == src && e.dst == dst && OnIface(e, iface)
  }

  /** The newest entry for source and group. */
  function Lookup(es: seq<Entry>, src: nat, dst: nat, iface: int): Option<Entry> {
    if es == [] then None else if Matches(es[0], src, dst, iface) then Some(es[0])
    else Lookup(es[1..], src, dst, iface)
  }

  /** The newest entry for the group, whatever its source. */
  function LookupGroup(es: seq<Entry>, dst: nat, iface: int): Option<Entry> {
    if es == [] then None else if es[0].dst == dst && OnIface(es[0], iface) then Some(es[0])
    else LookupGroup(es[1..], dst, iface)
  }

  /** Gives the entry that `Lookup` finds another interface. */
  function ChangeIface(es: seq<Entry>, src: nat, dst: nat, oldIface: int, newIface: int): (r: seq<Entry>)
    ensures |r| == |es|
  {
    if es == [] then []
    else if Matches(es[0], src, dst, oldIface) then [es[0].(iif := newIface)] + es[1..]
    else [es[0]] + ChangeIface(es[1..], src, dst, oldIface, newIface)
  }

  /** Where the entry that `Lookup` finds is; the length if there is none. */
  function Position(es: seq<Entry>, src: nat, dst: nat, iface: int): (k: nat)
    ensures k <= |es| && forall i :: 0 <= i < k ==> !Matches(es[i], src, dst, iface)
    ensures k < |es| ==> Matches(es[k], src, dst, iface)
  {
    if es == [] || Matches(es[0], src, dst, iface) then 0 else 1 + Position(es[1..], src, dst, iface)
  }

  lemma {:induction false} PositionFinds(es: seq<Entry>, src: nat, dst: nat, iface: int, newIface: int)
    ensures var k := Position(es, src, dst, iface);
      && Lookup(es, src, dst, iface) == (if k < |es| then Some(es[k]) else None)
      && ChangeIface(es, src, dst, iface, newIface)
         == (if k < |es| then es[k := es[k].(iif := newIface)] else es)
  {
    hide Matches;
    if es == [] {
    } else if Matches(es[0], src, dst, iface) {
      assert es[0 := es[0].(iif := newIface)] == [es[0].(iif := newIface)] + es[1..];
    } else {
      PositionFinds(es[1..], src, dst, iface, newIface);
      var k := Position(es[1..], src, dst, iface);
      if k < |es| - 1 {
        assert es[k + 1 := es[k + 1].(iif := newIface)] == [es[0]] + es[1..][k := es[k + 1].(iif := newIface)];
      } else {
        assert es == [es[0]] + es[1..];
      }
    }
  }

  // ----- buckets

  /** The entries whose hash is `h`, newest first. */
  function Bucket(es: seq<Entry>, h: nat): (b: seq<Entry>)
    ensures forall i :: 0 <= i < |b| ==> Hash(b[i].src, b[i].dst) == h
  {
    if es == [] then []
    else (if Hash(es[0].src, es[0].dst) == h then [es[0]] else []) + Bucket(es[1..], h)
  }

  lemma BucketHead(es: seq<Entry>, h: nat)
    requires es != []
    ensures Hash(es[0].src, es[0].dst) == h ==>
      Bucket(es, h) != [] && Bucket(es, h)[0] == es[0] && Bucket(es, h)[1..] == Bucket(es[1..], h)
    ensures Hash(es[0].src, es[0].dst) != h ==> Bucket(es, h) == Bucket(es[1..], h)
  {
    hide Hash;
  }

  /** The one bucket of source and group answers as the whole list does. */
  lemma {:induction false} BucketAnswers(es: seq<Entry>, src: nat, dst: nat, iface: int)
    ensures Lookup(Bucket(es, Hash(src, dst)), src, dst, iface) == Lookup(es, src, dst, iface)
  {
    hide Hash;
    if es != [] {
      BucketHead(es, Hash(src, dst));
      hide Bucket;
      BucketAnswers(es[1..], src, dst, iface);
    }
  }

  /** Changing an interface changes the one bucket as the whole list, and no other. */
  lemma {:induction false} BucketChanges(es: seq<Entry>, src: nat, dst: nat, oldIface: int, newIface: int, h: nat)
    ensures Bucket(ChangeIface(es, src, dst, oldIface, newIface), h)
         == if h == Hash(src, dst) then ChangeIface(Bucket(es, h), src, dst, oldIface, newIface) else Bucket(es, h)
  {
    hide Hash;
    if es != [] {
      var r := ChangeIface(es, src, dst, oldIface, newIface);
      BucketHead(es, h);
      BucketHead(r, h);
      BucketChanges(es[1..], src, dst, oldIface, newIface, h);
    }
  }

  // ----- shared trees

  /** Entries of the shared-tree table all carry source 0. */
  ghost predicate Shared(es: seq<Entry>) {
    forall i :: 0 <= i < |es| ==> es[i].src == 0
  }

  /** In the shared-tree table a search by group is a search for source 0. */
  lemma {:induction false} GroupIsSourceZero(es: seq<Entry>, dst: nat, iface: int)
    requires Shared(es)
    ensures LookupGroup(es, dst, iface) == Lookup(es, 0, dst, iface)
  {
    if es != [] {
      GroupIsSourceZero(es[1..], dst, iface);
    }
  }

  lemma {:induction false} ChangeKeepsShared(es: seq<Entry>, dst: nat, oldIface: int, newIface: int)
    requires Shared(es)
    ensures Shared(ChangeIface(es, 0, dst, oldIface, newIface))
  {
    if es != [] {
      ChangeKeepsShared(es[1..], dst, oldIface, newIface);
    }
  }

  // ----- classification

  datatype Verdict = Slot(slot: int) | WrongIface | CacheMiss

  function OrElse<T>(a: Option<T>, b: Option<T>): Option<T> {
    if a.Some? then a else b
  }

  /** What a packet from `src` to `dst` that came in on `iface` meets. */
  function Classify(own: seq<Entry>, shared: seq<Entry>, src: nat, dst: nat, iface: int): Verdict {
    var here := OrElse(Lookup(own, src, dst, iface), LookupGroup(shared, dst, iface));
    var any := OrElse(Lookup(own, src, dst, ANY_IFACE), LookupGroup(shared, dst, ANY_IFACE));
    if here.Some? then Slot(here.value.slot)
    else if any == None then CacheMiss
    else if any.value.iif == ANY_IFACE then Slot(any.value.slot) else WrongIface
  }

  ghost predicate Has(es: seq<Entry>, src: nat, dst: nat, iface: int) {
    exists i :: 0 <= i < |es| && Matches(es[i], src, dst, iface)
  }

  lemma {:induction false} LookupFindsIff(es: seq<Entry>, src: nat, dst: nat, iface: int)
    ensures Lookup(es, src, dst, iface).Some? <==> Has(es, src, dst, iface)
  {
    PositionFinds(es, src, dst, iface, iface);
    var k := Position(es, src, dst, iface);
    assert k < |es| ==> Matches(es[k], src, dst, iface);
  }

  /** The entry at `k` is the newest one that matches. */
  ghost predicate Newest(es: seq<Entry>, k: nat, src: nat, dst: nat, iface: int) {
    k < |es| && Matches(es[k], src, dst, iface) && forall j :: 0 <= j < k ==> !Matches(es[j], src, dst, iface)
  }

  lemma LookupIsNewest(es: seq<Entry>, src: nat, dst: nat, iface: int) returns (k: nat)
    requires Has(es, src, dst, iface)
    ensures Newest(es, k, src, dst, iface) && Lookup(es, src, dst, iface) == Some(es[k])
  {
    PositionFinds(es, src, dst, iface, iface);
    k := Position(es, src, dst, iface);
  }

  /** Which entry decides: the newest own entry for the interface, else the newest shared
      one for it; else the newest own entry on any interface, else the newest shared one,
      whose slot counts only if it is a wildcard entry. */
  ghost predicate Decides(own: seq<Entry>, shared: seq<Entry>, src: nat, dst: nat, iface: int, v: Verdict) {
    if Has(own, src, dst, iface) then
      exists k: nat :: Newest(own, k, src, dst, iface) && v == Slot(own[k].slot)
    else if Has(shared, 0, dst, iface) then
      exists k: nat :: Newest(shared, k, 0, dst, iface) && v == Slot(shared[k].slot)
    else if Has(own, src, dst, ANY_IFACE) then
      exists k: nat :: Newest(own, k, src, dst, ANY_IFACE) && v == WildcardSlot(own[k])
    else if Has(shared, 0, dst, ANY_IFACE) then
      exists k: nat :: Newest(shared, k, 0, dst, ANY_IFACE) && v == WildcardSlot(shared[k])
    else v == CacheMiss
  }

  function WildcardSlot(e: Entry): Verdict {
    if e.iif == ANY_IFACE then Slot(e.slot) else WrongIface
  }

  /** The packet gets the verdict of the entry that decides, and misses exactly when
      there is no entry for it on any interface. */
  lemma ClassifyIsRight(own: seq<Entry>, shared: seq<Entry>, src: nat, dst: nat, iface: int)
    requires Shared(shared)
    ensures var v := Classify(own, shared, src, dst, iface);
      && Decides(own, shared, src, dst, iface, v)
      && (v == CacheMiss <==> !Has(own, src, dst, ANY_IFACE) && !Has(shared, 0, dst, ANY_IFACE))
  {
    GroupIsSourceZero(shared, dst, iface);
    GroupIsSourceZero(shared, dst, ANY_IFACE);
    LookupFindsIff(own, src, dst, iface);
    LookupFindsIff(own, src, dst, ANY_IFACE);
    LookupFindsIff(shared, 0, dst, iface);
    LookupFindsIff(shared, 0, dst, ANY_IFACE);
    OnAnyIface(own, src, dst, iface);
    OnAnyIface(shared, 0, dst, iface);
    hide Lookup, LookupGroup, Has;
    if Has(own, src, dst, iface) {
      var k := LookupIsNewest(own, src, dst, iface);
    } else if Has(shared, 0, dst, iface) {
      var k := LookupIsNewest(shared, 0, dst, iface);
    } else if Has(own, src, dst, ANY_IFACE) {
      var k := LookupIsNewest(own, src, dst, ANY_IFACE);
    } else if Has(shared, 0, dst, ANY_IFACE) {
      var k := LookupIsNewest(shared, 0, dst, ANY_IFACE);
    }
  }

  lemma OnAnyIface(es: seq<Entry>, src: nat, dst: nat, iface: int)
    ensures Has(es, src, dst, iface) ==> Has(es, src, dst, ANY_IFACE)
  {
    if Has(es, src, dst, iface) {
      var i :| 0 <= i < |es| && Matches(es[i], src, dst, iface);
      assert Matches(es[i], src, dst, ANY_IFACE);
    }
  }
}
