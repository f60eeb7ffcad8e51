/** Dividing the cache slots of the client among its volumes: small volumes first, each getting
    all it needs, then the rest in proportion to the capacity of the large ones. What the eviction
    that follows a new size does is in `CacheRuns`. */
module CacheSizing {
  import opened MachineInts

  /** `capacity` in bytes (64 bits), `cacheSize` an unsigned 32-bit word. */
  datatype Vol = Vol(capacity: nat, cacheSize: Word)

  const BLOCK: nat := 4096

  function Need(v: Vol): nat { v.capacity / BLOCK }

  predicate Small(v: Vol, smallSize: nat) { v.capacity <= smallSize }

  /** Slots handed to the small (or, with `small == false`, the large) volumes. */
  ghost function Handed(vols: seq<Vol>, smallSize: nat, small: bool): nat {
    if vols == [] then 0
    else (if Small(vols[0], smallSize) == small then vols[0].cacheSize else 0) + Handed(vols[1..], smallSize, small)
  }

  function LargeNeed(vols: seq<Vol>, smallSize: nat): nat {
    if vols == [] then 0
    else (if Small(vols[0], smallSize) then 0 else Need(vols[0])) + LargeNeed(vols[1..], smallSize)
  }

  ghost function LargeCount(vols: seq<Vol>, smallSize: nat): nat {
    if vols == [] then 0
    else (if Small(vols[0], smallSize) then 0 else 1) + LargeCount(vols[1..], smallSize)
  }

  lemma {:induction false} CountHanded(vols: seq<Vol>, smallSize: nat)
    ensures LargeCount(vols, smallSize) == 0 ==> Handed(vols, smallSize, false) == 0 && LargeNeed(vols, smallSize) == 0
    ensures LargeNeed(vols, smallSize) > 0 ==> LargeCount(vols, smallSize) > 0
  {
    if vols != [] { CountHanded(vols[1..], smallSize); }
  }

  // ---------------------------------------------------------------- small volumes

  /** One small volume: the guard looks at the size it has, not at the size it needs. */
  function SmallSize(v: Vol, left: int): (r: (Word, int)) {
    if left >= v.cacheSize then (U32(Need(v)), left - U32(Need(v))) else (U32(left), 0)
  }

  function SmallPass(vols: seq<Vol>, left: int, smallSize: nat): (r: (seq<Vol>, int))
    ensures |r.0| == |vols|
  {
    if vols == [] then ([], left)
    else if !Small(vols[0], smallSize) then
      var rest := SmallPass(vols[1..], left, smallSize);
      ([vols[0]] + rest.0, rest.1)
    else
      var (size, left') := SmallSize(vols[0], left);
      var rest := SmallPass(vols[1..], left', smallSize);
      ([vols[0].(cacheSize := size)] + rest.0, rest.1)
  }

  /** Some small volume passes the guard on its current size but needs more than is left. */
  ghost predicate Overcommits(vols: seq<Vol>, left: int, smallSize: nat) {
    vols != [] &&
    if !Small(vols[0], smallSize) then Overcommits(vols[1..], left, smallSize)
    else || vols[0].cacheSize <= left < U32(Need(vols[0]))
         || Overcommits(vols[1..], SmallSize(vols[0], left).1, smallSize)
  }

  lemma SmallNext(vols: seq<Vol>, left: int, smallSize: nat)
    requires vols != []
    ensures var v, r := vols[0], SmallPass(vols, left, smallSize);
            if Small(v, smallSize)
            then var n := SmallSize(v, left); var rest := SmallPass(vols[1..], n.1, smallSize);
                 && r == ([v.(cacheSize := n.0)] + rest.0, rest.1)
                 && LargeNeed(vols, smallSize) == LargeNeed(vols[1..], smallSize)
            else var rest := SmallPass(vols[1..], left, smallSize);
                 r == ([v] + rest.0, rest.1) && LargeNeed(vols, smallSize) == Need(v) + LargeNeed(vols[1..], smallSize)
  {
    hide U32;
  }

  lemma MoveOver(a: seq<Vol>, v: Vol, b: seq<Vol>)
    ensures a + ([v] + b) == a + [v] + b
  {
  }

  method AllocSmall(vols: array<Vol>, maxItems: int, smallSize: nat) returns (left: int, totalNeed: nat)
    modifies vols
    ensures vols[..] == SmallPass(old(vols[..]), maxItems, smallSize).0
    ensures left == SmallPass(old(vols[..]), maxItems, smallSize).1
    ensures totalNeed == LargeNeed(old(vols[..]), smallSize)
  {
    hide U32, SmallPass, LargeNeed;
    ghost var v0 := vols[..];
    left, totalNeed := maxItems, 0;
    assert vols[..0] == [] && v0[0..] == v0;
    for i := 0 to vols.Length
      invariant vols[i..] == v0[i..]
      invariant SmallPass(v0, maxItems, smallSize).0 == vols[..i] + SmallPass(v0[i..], left, smallSize).0
      invariant SmallPass(v0, maxItems, smallSize).1 == SmallPass(v0[i..], left, smallSize).1
      invariant LargeNeed(v0, smallSize) == totalNeed + LargeNeed(v0[i..], smallSize)
    {
      ghost var before := vols[..i];
      assert v0[i..][0] == vols[i] && v0[i..][1..] == v0[i + 1..];
      SmallNext(v0[i..], left, smallSize);
      if vols[i].capacity > smallSize {
        totalNeed := totalNeed + vols[i].capacity / BLOCK;
      } else {
        var size: Word;
        if left >= vols[i].cacheSize {
          size := U32(vols[i].capacity / BLOCK);
          left := left - size;
        } else {
          size := U32(left);
          left := 0;
        }
        vols[i] := vols[i].(cacheSize := size);
      }
      assert vols[..i + 1] == before + [vols[i]];
      MoveOver(before, vols[i], SmallPass(v0[i + 1..], left, smallSize).0);
    }
    assert v0[vols.Length..] == [] && vols[..vols.Length] == vols[..];
    NoneLeft(left, smallSize);
  }

  lemma NoneLeft(left: int, smallSize: nat)
    ensures SmallPass([], left, smallSize) == ([], left) && LargeNeed([], smallSize) == 0
  {
  }

  /** Which volumes the first pass serves: with a capacity of at most the threshold, that included, a
      volume gets its whole need while what the volumes before it left covers its current size, and
      else what is left; a larger one is passed over. */
  lemma {:induction false} SmallServed(vols: seq<Vol>, left: int, smallSize: nat, i: nat)
    requires i < |vols|
    ensures var r, v, rest := SmallPass(vols, left, smallSize).0[i], vols[i], SmallPass(vols[..i], left, smallSize).1;
            && r.capacity == v.capacity
            && r.cacheSize == if v.capacity > smallSize then v.cacheSize
                              else U32(if rest >= v.cacheSize then v.capacity / 4096 else rest)
    decreases i
  {
    hide U32;
    if i > 0 {
      var left' := if Small(vols[0], smallSize) then SmallSize(vols[0], left).1 else left;
      SmallServed(vols[1..], left', smallSize, i - 1);
      assert vols[..i][1..] == vols[1..][..i - 1] && vols[..i][0] == vols[0];
    } else {
      assert vols[..0] == [];
    }
  }

  /** Slots are never lost; once the budget is overdrawn they are invented, or it stays overdrawn. */
  lemma {:induction false} SmallSurplus(vols: seq<Vol>, left: int, smallSize: nat)
    requires left + TWO32 > 0
    ensures var r := SmallPass(vols, left, smallSize);
            && Handed(r.0, smallSize, true) + r.1 >= left
            && (left < 0 ==> Handed(r.0, smallSize, true) + r.1 > left || r.1 < 0)
  {
    if vols != [] {
      var r := SmallPass(vols, left, smallSize);
      if !Small(vols[0], smallSize) {
        SmallSurplus(vols[1..], left, smallSize);
        assert r.0[1..] == SmallPass(vols[1..], left, smallSize).0;
      } else {
        var (size, left') := SmallSize(vols[0], left);
        SmallSurplus(vols[1..], left', smallSize);
        assert r.0[1..] == SmallPass(vols[1..], left', smallSize).0;
      }
    }
  }

  /** The small pass hands out exactly its budget, with a non-negative remainder, if and only if
      no volume overcommits it. */
  lemma {:induction false} SmallExact(vols: seq<Vol>, left: int, smallSize: nat)
    requires 0 <= left
    ensures var r := SmallPass(vols, left, smallSize);
            Handed(r.0, smallSize, true) + r.1 == left && r.1 >= 0 <==> !Overcommits(vols, left, smallSize)
  {
    if vols != [] {
      var r := SmallPass(vols, left, smallSize);
      if !Small(vols[0], smallSize) {
        SmallExact(vols[1..], left, smallSize);
        assert r.0[1..] == SmallPass(vols[1..], left, smallSize).0;
      } else {
        var (size, left') := SmallSize(vols[0], left);
        assert r.0[1..] == SmallPass(vols[1..], left', smallSize).0;
        if left' >= 0 {
          SmallExact(vols[1..], left', smallSize);
        } else {
          SmallSurplus(vols[1..], left', smallSize);
        }
      }
    }
  }

  /** In particular when every small volume enters with at least the slots it needs, as a newly
      created one does. */
  lemma {:induction false} FreshVolumesFit(vols: seq<Vol>, left: int, smallSize: nat)
    requires 0 <= left
    requires forall v :: v in vols && Small(v, smallSize) ==> v.cacheSize >= U32(Need(v))
    ensures !Overcommits(vols, left, smallSize)
  {
    if vols != [] {
      assert vols[0] in vols;
      FreshVolumesFit(vols[1..], if Small(vols[0], smallSize) then SmallSize(vols[0], left).1 else left, smallSize);
    }
  }

  /** But a second pass over volumes that were cut short does overcommit: two volumes of eight
      blocks and ten slots. */
  lemma SecondPassOvercommits()
    ensures var v := Vol(8 * BLOCK, 8);
            var first := SmallPass([v, v], 10, 100 * BLOCK);
            && first == ([v, v.(cacheSize := 2)], 0)
            && SmallPass(first.0, 10, 100 * BLOCK) == ([v, v], -6)
  {
    var v := Vol(8 * BLOCK, 8);
    var w := v.(cacheSize := 2);
    OneSmall(v, [v], 10);
    OneSmall(v, [], 2);
    OneSmall(v, [w], 10);
    OneSmall(w, [], 2);
    assert [v, v] == [v] + [v] && [v, w] == [v] + [w] && [v] + [] == [v] && [w] + [] == [w];
  }

  lemma OneSmall(v: Vol, rest: seq<Vol>, left: int)
    requires v.capacity == 8 * BLOCK && left >= 0
    ensures var n: (Word, int) := if left >= v.cacheSize then (8, left - 8) else (U32(left), 0);
            var r := SmallPass(rest, n.1, 100 * BLOCK);
            SmallPass([v] + rest, left, 100 * BLOCK) == ([v.(cacheSize := n.0)] + r.0, r.1)
  {
    assert ([v] + rest)[1..] == rest;
  }

  // ---------------------------------------------------------------- large volumes

  /** The source divides only for a large volume and a short budget. */
  ghost predicate Divides(vols: seq<Vol>, maxItems: int, smallSize: nat, totalNeed: nat) {
    maxItems >= totalNeed || totalNeed > 0 || LargeCount(vols, smallSize) == 0
  }

  /** What one large volume claims: all it needs, or its part of the budget; the product is
      computed in 64 bits. */
  function Claim(need: nat, maxItems: int, totalNeed: nat): nat {
    if maxItems >= totalNeed then need
    else if totalNeed == 0 then 0 // not reached: `Divides`
    else (maxItems * need) % TWO64 / totalNeed
  }

  /** The claim as stored in 32 bits. */
  function Share(need: nat, maxItems: int, totalNeed: nat): int { ToInt32(Claim(need, maxItems, totalNeed)) }

  /** The share actually given: the "should not happen" branch gives what is left instead. */
  function LargeSize(share: int, left: int): (r: (int, int)) {
    if left >= share then (share, ToInt32(left - share)) else (left, 0)
  }

  function Sized(v: Vol, size: int): Vol { v.(cacheSize := U32(size)) }

  function LargePass(vols: seq<Vol>, left: int, maxItems: int, smallSize: nat, totalNeed: nat): (r: (seq<Vol>, int))
    ensures |r.0| == |vols|
  {
    if vols == [] then ([], left)
    else if Small(vols[0], smallSize) then
      var rest := LargePass(vols[1..], left, maxItems, smallSize, totalNeed);
      ([vols[0]] + rest.0, rest.1)
    else
      var (size, left') := LargeSize(Share(Need(vols[0]), maxItems, totalNeed), left);
      var rest := LargePass(vols[1..], left', maxItems, smallSize, totalNeed);
      ([Sized(vols[0], size)] + rest.0, rest.1)
  }

  /** The loop divides by zero, at the first large volume, exactly when `Divides` does not hold. */
  method AllocLarge(vols: array<Vol>, maxItems: int, smallSize: nat, totalNeed: nat) returns (left: int, fault: bool)
    modifies vols
    ensures fault <==> !Divides(old(vols[..]), maxItems, smallSize, totalNeed)
    ensures fault ==> vols[..] == old(vols[..])
    ensures !fault ==> var r := LargePass(old(vols[..]), ToInt32(maxItems), maxItems, smallSize, totalNeed);
                       vols[..] == r.0 && left == r.1
  {
    hide Claim, ToInt32, U32;
    ghost var v0 := vols[..];
    left, fault := ToInt32(maxItems), false;
    assert vols[..0] == [] && v0[0..] == v0;
    for i := 0 to vols.Length
      invariant vols[i..] == v0[i..]
      invariant maxItems < totalNeed == 0 ==> vols[..] == v0 && LargeCount(v0[..i], smallSize) == 0
      invariant LargePass(v0, ToInt32(maxItems), maxItems, smallSize, totalNeed).0
             == vols[..i] + LargePass(v0[i..], left, maxItems, smallSize, totalNeed).0
      invariant LargePass(v0, ToInt32(maxItems), maxItems, smallSize, totalNeed).1
             == LargePass(v0[i..], left, maxItems, smallSize, totalNeed).1
    {
      ghost var before := vols[..i];
      assert v0[i..][0] == vols[i] && v0[i..][1..] == v0[i + 1..];
      CountSplit(v0, i, smallSize);
      if vols[i].capacity > smallSize {
        if maxItems < totalNeed && totalNeed == 0 { return left, true; }
        var need := ToInt32(Claim(vols[i].capacity / BLOCK, maxItems, totalNeed));
        if left >= need {
          left := ToInt32(left - need);
        } else {
          need := left;
          left := 0;
        }
        vols[i] := Sized(vols[i], need);
      }
      assert vols[..i + 1] == before + [vols[i]];
      assert forall rest: seq<Vol> :: before + ([vols[i]] + rest) == vols[..i + 1] + rest;
    }
    assert v0[vols.Length..] == [] && vols[..vols.Length] == vols[..] && v0[..vols.Length] == v0;
  }

  lemma {:induction false} CountSplit(vols: seq<Vol>, i: nat, smallSize: nat)
    requires i < |vols|
    ensures LargeCount(vols[..i + 1], smallSize)
            == LargeCount(vols[..i], smallSize) + if Small(vols[i], smallSize) then 0 else 1
    ensures LargeCount(vols[..i + 1], smallSize) <= LargeCount(vols, smallSize)
    decreases i
  {
    if i == 0 {
      assert vols[..1] == [vols[0]] && vols[..1][1..] == [];
    } else {
      CountSplit(vols[1..], i - 1, smallSize);
      assert vols[..i + 1][1..] == vols[1..][..i] && vols[..i][1..] == vols[1..][..i - 1];
    }
  }

  /** Which volumes the second pass serves: those above the threshold. Each gets its claim, or what is
      left if that is less. */
  lemma {:induction false} LargeServed(vols: seq<Vol>, left: int, maxItems: int, smallSize: nat, totalNeed: nat, i: nat)
    requires i < |vols|
    ensures var r, v := LargePass(vols, left, maxItems, smallSize, totalNeed).0[i], vols[i];
            var rest := LargePass(vols[..i], left, maxItems, smallSize, totalNeed).1;
            var share := ToInt32(Claim(v.capacity / 4096, maxItems, totalNeed));
            && r.capacity == v.capacity
            && r.cacheSize == if v.capacity <= smallSize then v.cacheSize
                              else U32(if rest >= share then share else rest)
    decreases i
  {
    hide U32, ToInt32, Claim;
    if i > 0 {
      var share := Share(Need(vols[0]), maxItems, totalNeed);
      var left' := if Small(vols[0], smallSize) then left else LargeSize(share, left).1;
      LargeServed(vols[1..], left', maxItems, smallSize, totalNeed, i - 1);
      assert vols[..i][1..] == vols[1..][..i - 1] && vols[..i][0] == vols[0];
    } else {
      assert vols[..0] == [];
    }
  }

  // ---------------------------------------------------------------- when the fallback fires

  /** The "should not happen" branch is not taken for any large volume. */
  ghost predicate NoFallback(vols: seq<Vol>, left: int, maxItems: int, smallSize: nat, totalNeed: nat) {
    vols == [] ||
    if Small(vols[0], smallSize) then NoFallback(vols[1..], left, maxItems, smallSize, totalNeed)
    else
      var share := Share(Need(vols[0]), maxItems, totalNeed);
      left >= share && NoFallback(vols[1..], ToInt32(left - share), maxItems, smallSize, totalNeed)
  }

  /** Claims of all large volumes together, without any width. */
  ghost function Claimed(vols: seq<Vol>, maxItems: int, smallSize: nat, totalNeed: nat): nat {
    if vols == [] then 0
    else (if Small(vols[0], smallSize) then 0 else Claim(Need(vols[0]), maxItems, totalNeed))
         + Claimed(vols[1..], maxItems, smallSize, totalNeed)
  }

  /** Every claim fits a non-negative 32-bit integer. */
  ghost predicate ClaimsFit(vols: seq<Vol>, maxItems: int, smallSize: nat, totalNeed: nat) {
    forall v :: v in vols && !Small(v, smallSize) ==> Claim(Need(v), maxItems, totalNeed) < TWO31
  }

  /** Arithmetic modulo 2^32 commutes with the truncation. */
  lemma ToInt32Minus(x: int, y: int)
    ensures ToInt32(ToInt32(x) - ToInt32(y)) == ToInt32(x - y) && U32(ToInt32(x)) == U32(x)
  {
    var i, j := x / TWO32 + (if x % TWO32 < TWO31 then 0 else 1), y / TWO32 + (if y % TWO32 < TWO31 then 0 else 1);
    ModSame(ToInt32(x) - ToInt32(y), x - y, i - j);
    ModSame(ToInt32(x), x, i);
  }

  lemma ModSame(a: int, b: int, k: int)
    requires b == a + k * TWO32
    ensures a % TWO32 == b % TWO32
  {
  }

  /** The budget left at volume `i`, before the first fallback, is the budget minus the claims before
      it, in 32 bits; so the branch is taken nowhere exactly when that covers every claim. */
  lemma {:induction false} FallbackFrom(vols: seq<Vol>, spent: int, maxItems: int, smallSize: nat, totalNeed: nat)
    ensures NoFallback(vols, ToInt32(maxItems - spent), maxItems, smallSize, totalNeed)
       <==> forall i :: 0 <= i < |vols| && !Small(vols[i], smallSize) ==>
              ToInt32(maxItems - spent - Claimed(vols[..i], maxItems, smallSize, totalNeed))
              >= Share(Need(vols[i]), maxItems, totalNeed)
    decreases |vols|
  {
    hide Claim, ToInt32;
    if vols != [] {
      var v := vols[0];
      var c: nat := if Small(v, smallSize) then 0 else Claim(Need(v), maxItems, totalNeed);
      ToInt32Minus(maxItems - spent, c);
      FallbackFrom(vols[1..], spent + c, maxItems, smallSize, totalNeed);
      assert vols[..0] == [];
      forall i | 0 < i < |vols| ensures Claimed(vols[..i], maxItems, smallSize, totalNeed)
                                     == c + Claimed(vols[1..][..i - 1], maxItems, smallSize, totalNeed) {
        assert vols[..i][1..] == vols[1..][..i - 1];
      }
      forall i | 0 <= i < |vols| - 1 ensures vols[1..][i] == vols[i + 1] { }
    }
  }

  /** For every budget and every set of volumes: the fallback fires nowhere exactly when, at every
      large volume, the budget minus the claims before it still covers its claim, all taken in 32
      bits. */
  lemma FallbackExactly(vols: seq<Vol>, maxItems: int, smallSize: nat, totalNeed: nat)
    ensures NoFallback(vols, ToInt32(maxItems), maxItems, smallSize, totalNeed)
       <==> forall i :: 0 <= i < |vols| && !Small(vols[i], smallSize) ==>
              ToInt32(maxItems - Claimed(vols[..i], maxItems, smallSize, totalNeed))
              >= ToInt32(Claim(Need(vols[i]), maxItems, totalNeed))
  {
    hide Claim, ToInt32;
    FallbackFrom(vols, 0, maxItems, smallSize, totalNeed);
    forall i | 0 <= i < |vols| ensures maxItems - 0 - Claimed(vols[..i], maxItems, smallSize, totalNeed)
                                    == maxItems - Claimed(vols[..i], maxItems, smallSize, totalNeed) { }
  }

  lemma {:induction false} FallbackFitsFrom(vols: seq<Vol>, left: int, maxItems: int, smallSize: nat, totalNeed: nat)
    requires ClaimsFit(vols, maxItems, smallSize, totalNeed) && -TWO31 <= left < TWO31
    ensures NoFallback(vols, left, maxItems, smallSize, totalNeed)
       <==> LargeCount(vols, smallSize) == 0 || Claimed(vols, maxItems, smallSize, totalNeed) <= left
    decreases |vols|
  {
    hide Claim, ToInt32;
    if vols != [] {
      var v := vols[0];
      assert v in vols && forall x :: x in vols[1..] ==> x in vols;
      if Small(v, smallSize) {
        FallbackFitsFrom(vols[1..], left, maxItems, smallSize, totalNeed);
      } else {
        var c := Claim(Need(v), maxItems, totalNeed);
        SmallWord(c);
        if left >= c {
          SmallWord(left - c);
          FallbackFitsFrom(vols[1..], left - c, maxItems, smallSize, totalNeed);
          NoneClaimed(vols[1..], maxItems, smallSize, totalNeed);
        }
      }
    }
  }

  lemma {:induction false} NoneClaimed(vols: seq<Vol>, maxItems: int, smallSize: nat, totalNeed: nat)
    ensures LargeCount(vols, smallSize) == 0 ==> Claimed(vols, maxItems, smallSize, totalNeed) == 0
  {
    if vols != [] { NoneClaimed(vols[1..], maxItems, smallSize, totalNeed); }
  }

  lemma Int32Range(x: int)
    ensures -TWO31 <= ToInt32(x) < TWO31
  {
  }

  /** When no single claim needs more than 31 bits: no fallback exactly when there is no large volume
      or all claims together fit the budget as truncated to 32 bits. */
  lemma FallbackByTotal(vols: seq<Vol>, maxItems: int, smallSize: nat, totalNeed: nat)
    requires ClaimsFit(vols, maxItems, smallSize, totalNeed)
    ensures NoFallback(vols, ToInt32(maxItems), maxItems, smallSize, totalNeed)
       <==> LargeCount(vols, smallSize) == 0 || Claimed(vols, maxItems, smallSize, totalNeed) <= ToInt32(maxItems)
  {
    hide Claim, ToInt32;
    Int32Range(maxItems);
    FallbackFitsFrom(vols, ToInt32(maxItems), maxItems, smallSize, totalNeed);
  }

  /** The sufficient budget of the promise: the claims are the needs. */
  lemma {:induction false} FullClaims(vols: seq<Vol>, maxItems: int, smallSize: nat, totalNeed: nat)
    requires maxItems >= totalNeed
    ensures Claimed(vols, maxItems, smallSize, totalNeed) == LargeNeed(vols, smallSize)
    decreases |vols|
  {
    if vols != [] { FullClaims(vols[1..], maxItems, smallSize, totalNeed); }
  }

  /** In particular, for a budget that covers every need: no fallback exactly when there is no large
      volume or the needs together fit the budget as truncated. */
  lemma FallbackFull(vols: seq<Vol>, maxItems: nat, smallSize: nat)
    requires maxItems >= LargeNeed(vols, smallSize)
    requires forall v :: v in vols && !Small(v, smallSize) ==> Need(v) < TWO31
    ensures NoFallback(vols, ToInt32(maxItems), maxItems, smallSize, LargeNeed(vols, smallSize))
       <==> LargeCount(vols, smallSize) == 0 || LargeNeed(vols, smallSize) <= ToInt32(maxItems)
  {
    hide ToInt32, NoFallback, Claimed, LargeNeed, LargeCount;
    FallbackByTotal(vols, maxItems, smallSize, LargeNeed(vols, smallSize));
    FullClaims(vols, maxItems, smallSize, LargeNeed(vols, smallSize));
  }

  /** Two budgets from 2^31 on: 2^31 slots and one block fall back, 2^32 + 5 slots and three blocks
      do not. */
  lemma WideBudgets()
    ensures var v := Vol(BLOCK, 0);
            && !NoFallback([v], ToInt32(TWO31), TWO31, 0, 1)
            && LargePass([v], ToInt32(TWO31), TWO31, 0, 1).0 == [Sized(v, -TWO31)]
    ensures var v := Vol(3 * BLOCK, 0);
            && NoFallback([v], ToInt32(0x1_0000_0005), 0x1_0000_0005, 0, 3)
            && LargePass([v], ToInt32(0x1_0000_0005), 0x1_0000_0005, 0, 3) == ([v.(cacheSize := 3)], 2)
  {
    var v, w := Vol(BLOCK, 0), Vol(3 * BLOCK, 0);
    assert [v][1..] == [] && [w][1..] == [];
    OneLarge(v, ToInt32(TWO31), TWO31, 1);
    OneLarge(w, ToInt32(0x1_0000_0005), 0x1_0000_0005, 3);
  }

  lemma OneLarge(v: Vol, left: int, maxItems: int, totalNeed: nat)
    requires v.capacity > 0
    ensures var (size, left') := LargeSize(Share(Need(v), maxItems, totalNeed), left);
            LargePass([v], left, maxItems, 0, totalNeed) == ([Sized(v, size)], left')
  {
    assert [v][1..] == [];
    var (size, left') := LargeSize(Share(Need(v), maxItems, totalNeed), left);
    assert [Sized(v, size)] + [] == [Sized(v, size)];
  }

  // ---------------------------------------------------------------- the claims and the budget

  /** `given` slots are at most (more than) the exact share of `need`. */
  ghost predicate AtMost(given: int, need: nat, maxItems: nat, totalNeed: nat) {
    given * totalNeed <= maxItems * need
  }

  lemma DivideBounds(p: nat, d: nat)
    requires d > 0
    ensures (p / d) * d <= p < (p / d + 1) * d
  {
  }

  lemma MulMono(k: nat, a: nat, b: nat)
    requires a <= b
    ensures k * a <= k * b
  {
  }

  lemma CancelMul(a: int, b: int, d: nat)
    requires d > 0 && a * d <= b * d
    ensures a <= b
  {
    assert d * (a - b) == a * d - b * d;
    if a > b {
      MulMono(d, 1, a - b);
    }
  }

  /** A claim never exceeds the exact share, wrapped product or not. */
  lemma ClaimBound(need: nat, maxItems: nat, totalNeed: nat)
    requires need <= totalNeed
    ensures maxItems < totalNeed ==> AtMost(Claim(need, maxItems, totalNeed), need, maxItems, totalNeed)
    ensures Claim(need, maxItems, totalNeed) <= maxItems
  {
    if maxItems < totalNeed {
      MulMono(maxItems, 0, need);
      var x := maxItems * need;
      var p := x % TWO64;
      assert 0 <= p <= x;
      DivideBounds(p, totalNeed);
      MulMono(maxItems, need, totalNeed);
      CancelMul(p / totalNeed, maxItems, totalNeed);
    }
  }

  lemma {:induction false} ClaimedBound(vols: seq<Vol>, maxItems: nat, smallSize: nat, totalNeed: nat)
    requires maxItems < totalNeed && LargeNeed(vols, smallSize) <= totalNeed
    ensures AtMost(Claimed(vols, maxItems, smallSize, totalNeed), LargeNeed(vols, smallSize), maxItems, totalNeed)
    ensures forall v :: v in vols && !Small(v, smallSize) ==> Need(v) <= totalNeed
    decreases |vols|
  {
    hide Claim, AtMost;
    if vols == [] {
      AtMostNone(maxItems, totalNeed);
    } else {
      ClaimedBound(vols[1..], maxItems, smallSize, totalNeed);
      if !Small(vols[0], smallSize) {
        ClaimBound(Need(vols[0]), maxItems, totalNeed);
        AtMostPlus(Claim(Need(vols[0]), maxItems, totalNeed), Claimed(vols[1..], maxItems, smallSize, totalNeed),
                   Need(vols[0]), LargeNeed(vols[1..], smallSize), maxItems, totalNeed);
      }
    }
  }

  lemma AtMostNone(maxItems: nat, totalNeed: nat)
    ensures AtMost(0, 0, maxItems, totalNeed)
  {
  }

  lemma AtMostPlus(a: int, b: int, x: nat, y: nat, maxItems: nat, totalNeed: nat)
    requires AtMost(a, x, maxItems, totalNeed) && AtMost(b, y, maxItems, totalNeed)
    ensures AtMost(a + b, x + y, maxItems, totalNeed)
  {
    assert (a + b) * totalNeed == a * totalNeed + b * totalNeed;
    assert maxItems * (x + y) == maxItems * x + maxItems * y;
  }

  /** The claims never exceed the budget. */
  lemma ClaimedFits(vols: seq<Vol>, maxItems: nat, smallSize: nat)
    ensures Claimed(vols, maxItems, smallSize, LargeNeed(vols, smallSize)) <= maxItems
  {
    hide Claim;
    var need := LargeNeed(vols, smallSize);
    if maxItems >= need {
      FullClaims(vols, maxItems, smallSize, need);
    } else {
      ClaimedBound(vols, maxItems, smallSize, need);
      CancelMul(Claimed(vols, maxItems, smallSize, need), maxItems, need);
    }
  }

  lemma {:induction false} ClaimInClaimed(vols: seq<Vol>, maxItems: int, smallSize: nat, totalNeed: nat, v: Vol)
    requires v in vols && !Small(v, smallSize)
    ensures Claim(Need(v), maxItems, totalNeed) <= Claimed(vols, maxItems, smallSize, totalNeed)
    decreases |vols|
  {
    hide Claim;
    if vols[0] != v {
      assert v in vols[1..];
      ClaimInClaimed(vols[1..], maxItems, smallSize, totalNeed, v);
    }
  }

  /** Budgets below 2^31, as configured by default, never fall back. */
  lemma SmallBudgetFits(vols: seq<Vol>, maxItems: nat, smallSize: nat)
    requires maxItems < TWO31
    ensures var need := LargeNeed(vols, smallSize);
            && ClaimsFit(vols, maxItems, smallSize, need) && ToInt32(maxItems) == maxItems
            && NoFallback(vols, ToInt32(maxItems), maxItems, smallSize, need)
  {
    hide Claim, ToInt32;
    var need := LargeNeed(vols, smallSize);
    ClaimedFits(vols, maxItems, smallSize);
    forall v | v in vols && !Small(v, smallSize) ensures Claim(Need(v), maxItems, need) < TWO31 {
      ClaimInClaimed(vols, maxItems, smallSize, need, v);
    }
    SmallWord(maxItems);
    FallbackByTotal(vols, maxItems, smallSize, need);
  }

  // ---------------------------------------------------------------- what is handed out

  /** Without a fallback the large volumes hold exactly their claims. */
  lemma {:induction false} HandedClaims(vols: seq<Vol>, left: int, maxItems: int, smallSize: nat, totalNeed: nat)
    requires ClaimsFit(vols, maxItems, smallSize, totalNeed) && NoFallback(vols, left, maxItems, smallSize, totalNeed)
    requires left < TWO31
    ensures var r := LargePass(vols, left, maxItems, smallSize, totalNeed);
            && (forall i :: 0 <= i < |vols| && !Small(vols[i], smallSize) ==>
                  r.0[i].cacheSize == Claim(Need(vols[i]), maxItems, totalNeed))
            && Handed(r.0, smallSize, false) == Claimed(vols, maxItems, smallSize, totalNeed)
            && r.1 == left - Claimed(vols, maxItems, smallSize, totalNeed)
    decreases |vols|
  {
    hide Claim, ToInt32, U32;
    if vols != [] {
      var v, r := vols[0], LargePass(vols, left, maxItems, smallSize, totalNeed);
      assert v in vols && forall x :: x in vols[1..] ==> x in vols;
      var c: nat := if Small(v, smallSize) then 0 else Claim(Need(v), maxItems, totalNeed);
      if !Small(v, smallSize) {
        SmallWord(c);
        SmallWord(left - c);
      }
      HandedClaims(vols[1..], left - c, maxItems, smallSize, totalNeed);
      assert r.0[1..] == LargePass(vols[1..], left - c, maxItems, smallSize, totalNeed).0;
    }
  }

  /** With nothing left, nothing more is handed out. */
  lemma {:induction false} NothingLeft(vols: seq<Vol>, maxItems: int, smallSize: nat, totalNeed: nat)
    requires ClaimsFit(vols, maxItems, smallSize, totalNeed)
    ensures Handed(LargePass(vols, 0, maxItems, smallSize, totalNeed).0, smallSize, false) == 0
    decreases |vols|
  {
    hide Claim;
    if vols != [] {
      var v, r := vols[0], LargePass(vols, 0, maxItems, smallSize, totalNeed);
      assert v in vols && forall x :: x in vols[1..] ==> x in vols;
      if !Small(v, smallSize) { SmallWord(Claim(Need(v), maxItems, totalNeed)); }
      NothingLeft(vols[1..], maxItems, smallSize, totalNeed);
      assert r.0[1..] == LargePass(vols[1..], 0, maxItems, smallSize, totalNeed).0;
    }
  }

  lemma WordBelow(x: nat)
    ensures U32(ToInt32(x)) <= x
  {
  }

  /** Claims of any width: without a fallback each large volume holds its claim, cut to 32 bits. */
  lemma {:induction false} HandedWords(vols: seq<Vol>, spent: int, maxItems: int, smallSize: nat, totalNeed: nat)
    requires NoFallback(vols, ToInt32(maxItems - spent), maxItems, smallSize, totalNeed)
    ensures var r := LargePass(vols, ToInt32(maxItems - spent), maxItems, smallSize, totalNeed);
            && (forall i :: 0 <= i < |vols| && !Small(vols[i], smallSize) ==>
                  r.0[i].cacheSize == U32(Claim(Need(vols[i]), maxItems, totalNeed)))
            && Handed(r.0, smallSize, false) <= Claimed(vols, maxItems, smallSize, totalNeed)
            && r.1 == ToInt32(maxItems - spent - Claimed(vols, maxItems, smallSize, totalNeed))
    decreases |vols|
  {
    hide Claim, ToInt32, U32;
    if vols != [] {
      var v, r := vols[0], LargePass(vols, ToInt32(maxItems - spent), maxItems, smallSize, totalNeed);
      var c: nat := if Small(v, smallSize) then 0 else Claim(Need(v), maxItems, totalNeed);
      if !Small(v, smallSize) {
        ToInt32Minus(maxItems - spent, c);
        ToInt32Minus(c, 0);
        WordBelow(c);
      }
      assert maxItems - spent - c == maxItems - (spent + c);
      HandedWords(vols[1..], spent + c, maxItems, smallSize, totalNeed);
      assert r.0[1..] == LargePass(vols[1..], ToInt32(maxItems - (spent + c)), maxItems, smallSize, totalNeed).0;
    }
  }

  /** After the first fallback no large volume claims 2^31 slots or more. */
  ghost predicate SafeTail(vols: seq<Vol>, left: int, maxItems: int, smallSize: nat, totalNeed: nat) {
    vols == [] ||
    if Small(vols[0], smallSize) then SafeTail(vols[1..], left, maxItems, smallSize, totalNeed)
    else
      var share := Share(Need(vols[0]), maxItems, totalNeed);
      if left >= share then SafeTail(vols[1..], ToInt32(left - share), maxItems, smallSize, totalNeed)
      else ClaimsFit(vols[1..], maxItems, smallSize, totalNeed)
  }

  lemma {:induction false} SafeWhen(vols: seq<Vol>, left: int, maxItems: int, smallSize: nat, totalNeed: nat)
    ensures NoFallback(vols, left, maxItems, smallSize, totalNeed) ==>
              SafeTail(vols, left, maxItems, smallSize, totalNeed)
    ensures ClaimsFit(vols, maxItems, smallSize, totalNeed) ==> SafeTail(vols, left, maxItems, smallSize, totalNeed)
    decreases |vols|
  {
    hide Claim, ToInt32;
    if vols != [] {
      assert forall x :: x in vols[1..] ==> x in vols;
      var share := Share(Need(vols[0]), maxItems, totalNeed);
      var left' := if Small(vols[0], smallSize) then left else ToInt32(left - share);
      SafeWhen(vols[1..], left', maxItems, smallSize, totalNeed);
    }
  }

  /** Some volume of the rest claims 2^31 slots or more, and gets them with nothing left. */
  lemma {:induction false} HugeGetsSome(vols: seq<Vol>, left: int, maxItems: int, smallSize: nat, totalNeed: nat)
    requires 0 <= left < TWO31 && !ClaimsFit(vols, maxItems, smallSize, totalNeed)
    requires Claimed(vols, maxItems, smallSize, totalNeed) < TWO32
    ensures Handed(LargePass(vols, left, maxItems, smallSize, totalNeed).0, smallSize, false) > 0
    decreases |vols|
  {
    hide Claim, ToInt32, U32;
    var v, r := vols[0], LargePass(vols, left, maxItems, smallSize, totalNeed);
    assert vols == [v] + vols[1..];
    var c := Claim(Need(v), maxItems, totalNeed);
    if Small(v, smallSize) {
      HugeGetsSome(vols[1..], left, maxItems, smallSize, totalNeed);
      assert r.0[1..] == LargePass(vols[1..], left, maxItems, smallSize, totalNeed).0;
    } else if c >= TWO31 {
      HugeShare(c);
    } else {
      SmallWord(c);
      var left' := if left >= c then left - c else 0;
      SmallWord(left');
      HugeGetsSome(vols[1..], left', maxItems, smallSize, totalNeed);
      assert r.0[1..] == LargePass(vols[1..], left', maxItems, smallSize, totalNeed).0;
    }
  }

  lemma HugeShare(c: nat)
    requires TWO31 <= c < TWO32
    ensures ToInt32(c) < 0 && U32(ToInt32(c)) == c
  {
  }

  /** Safe, at most what is left is handed out; unsafe, with less than 2^32 left, more. */
  lemma {:induction false} HandedSafe(vols: seq<Vol>, spent: int, maxItems: int, smallSize: nat, totalNeed: nat)
    requires Claimed(vols, maxItems, smallSize, totalNeed) <= maxItems - spent
    ensures var r := LargePass(vols, ToInt32(maxItems - spent), maxItems, smallSize, totalNeed);
            var safe := SafeTail(vols, ToInt32(maxItems - spent), maxItems, smallSize, totalNeed);
            && (safe ==> Handed(r.0, smallSize, false) <= maxItems - spent)
            && (!safe && maxItems - spent < TWO32 ==> Handed(r.0, smallSize, false) > maxItems - spent)
    decreases |vols|
  {
    hide Claim, ToInt32, U32;
    if vols != [] {
      var v, left := vols[0], ToInt32(maxItems - spent);
      var r := LargePass(vols, left, maxItems, smallSize, totalNeed);
      var c: nat := if Small(v, smallSize) then 0 else Claim(Need(v), maxItems, totalNeed);
      if Small(v, smallSize) || left >= ToInt32(c) {
        ToInt32Minus(maxItems - spent, c);
        ToInt32Minus(c, 0);
        WordBelow(c);
        if c < TWO32 { WordItself(c); }
        assert maxItems - spent - c == maxItems - (spent + c);
        HandedSafe(vols[1..], spent + c, maxItems, smallSize, totalNeed);
        assert r.0[1..] == LargePass(vols[1..], ToInt32(maxItems - (spent + c)), maxItems, smallSize, totalNeed).0;
      } else {
        FallbackSafe(vols, maxItems - spent, maxItems, smallSize, totalNeed);
      }
    }
  }

  lemma FallbackSafe(vols: seq<Vol>, rest: nat, maxItems: int, smallSize: nat, totalNeed: nat)
    requires vols != [] && !Small(vols[0], smallSize) && Claimed(vols, maxItems, smallSize, totalNeed) <= rest
    requires ToInt32(rest) < Share(Need(vols[0]), maxItems, totalNeed)
    ensures var r := LargePass(vols, ToInt32(rest), maxItems, smallSize, totalNeed);
            var safe := SafeTail(vols, ToInt32(rest), maxItems, smallSize, totalNeed);
            && (safe ==> Handed(r.0, smallSize, false) <= rest)
            && (!safe && rest < TWO32 ==> Handed(r.0, smallSize, false) > rest)
  {
    hide Claim, ToInt32, U32;
    var r := LargePass(vols, ToInt32(rest), maxItems, smallSize, totalNeed);
    assert r.0[1..] == LargePass(vols[1..], 0, maxItems, smallSize, totalNeed).0;
    WordBelow(rest);
    if ClaimsFit(vols[1..], maxItems, smallSize, totalNeed) {
      NothingLeft(vols[1..], maxItems, smallSize, totalNeed);
    } else if rest < TWO32 {
      WordItself(rest);
      HugeGetsSome(vols[1..], 0, maxItems, smallSize, totalNeed);
    }
  }

  lemma WordItself(x: nat)
    requires x < TWO32
    ensures U32(ToInt32(x)) == x
  {
  }

  /** Apportionment over all large volumes, for every non-negative budget: never more than the budget is
      handed out while no large volume after the first fallback claims 2^31 slots or more, and, for
      budgets below 2^32, only then - in particular without a fallback, and while all claims fit 31
      bits. Without a fallback every large volume holds its claim, cut to 32 bits, and a sufficient
      budget with claims that fit serves every need in full. */
  lemma LargeExact(vols: seq<Vol>, maxItems: nat, smallSize: nat)
    ensures var need := LargeNeed(vols, smallSize);
            var r := LargePass(vols, ToInt32(maxItems), maxItems, smallSize, need);
            var safe := SafeTail(vols, ToInt32(maxItems), maxItems, smallSize, need);
            var straight := NoFallback(vols, ToInt32(maxItems), maxItems, smallSize, need);
            var fit := ClaimsFit(vols, maxItems, smallSize, need);
            && (straight || fit ==> safe)
            && (safe ==> Handed(r.0, smallSize, false) <= maxItems)
            && (maxItems < TWO32 ==> (safe <==> Handed(r.0, smallSize, false) <= maxItems))
            && (straight ==>
                  && r.1 == ToInt32(maxItems - Claimed(vols, maxItems, smallSize, need))
                  && forall i :: 0 <= i < |vols| && !Small(vols[i], smallSize) ==>
                       r.0[i].cacheSize == U32(Claim(Need(vols[i]), maxItems, need)))
            && (straight && fit ==>
                  && Handed(r.0, smallSize, false) == Claimed(vols, maxItems, smallSize, need)
                  && (maxItems >= need ==> Handed(r.0, smallSize, false) == need))
  {
    hide Claim, ToInt32, U32, LargePass, Claimed, Handed, NoFallback, SafeTail, ClaimsFit, LargeNeed;
    var need := LargeNeed(vols, smallSize);
    Int32Range(maxItems);
    ClaimedFits(vols, maxItems, smallSize);
    HandedSafe(vols, 0, maxItems, smallSize, need);
    SafeWhen(vols, ToInt32(maxItems), maxItems, smallSize, need);
    if NoFallback(vols, ToInt32(maxItems), maxItems, smallSize, need) {
      HandedWords(vols, 0, maxItems, smallSize, need);
      if ClaimsFit(vols, maxItems, smallSize, need) {
        HandedClaims(vols, ToInt32(maxItems), maxItems, smallSize, need);
        if maxItems >= need { FullClaims(vols, maxItems, smallSize, need); }
      }
    }
  }

  /** Both a fallback and a claim from 2^31 on: 2^32 - 1 slots for volumes of 5 and of 2^32 - 6 blocks
      are handed out almost twice. */
  lemma HugeClaimOverdraws()
    ensures var v, w := Vol(5 * BLOCK, 0), Vol((TWO32 - 6) * BLOCK, 0);
            && LargeNeed([v, w], 0) == TWO32 - 1
            && Handed(LargePass([v, w], ToInt32(TWO32 - 1), TWO32 - 1, 0, TWO32 - 1).0, 0, false) == 2 * TWO32 - 7
  {
    var v, w := Vol(5 * BLOCK, 0), Vol((TWO32 - 6) * BLOCK, 0);
    assert [v, w][1..] == [w] && [w][1..] == [];
    assert Need(v) == 5 && Need(w) == TWO32 - 6;
    var v', w' := Sized(v, -1), Sized(w, -6);
    assert LargePass([], 6, TWO32 - 1, 0, TWO32 - 1) == ([], 6);
    assert LargePass([w], 0, TWO32 - 1, 0, TWO32 - 1) == ([w'] + [], 6);
    assert LargePass([v, w], -1, TWO32 - 1, 0, TWO32 - 1).0 == [v'] + ([w'] + []);
    var r := [v'] + ([w'] + []);
    assert r[1..] == [w'] && [w'][1..] == [];
    assert LargeNeed([w], 0) == TWO32 - 6 + LargeNeed([], 0);
    assert Handed([w'], 0, false) == TWO32 - 6 + Handed([], 0, false) && v'.cacheSize == TWO32 - 1;
  }

  // ---------------------------------------------------------------- what stays unassigned

  /** How often the 64-bit products of the large volumes wrap, and what their divisions lose. */
  ghost function Wraps(vols: seq<Vol>, maxItems: nat, smallSize: nat): nat {
    if vols == [] then 0
    else Wraps(vols[1..], maxItems, smallSize)
         + if Small(vols[0], smallSize) then 0 else Wrapped(maxItems, Need(vols[0]))
  }

  function Wrapped(maxItems: nat, need: nat): nat {
    MulMono(maxItems, 0, need);
    maxItems * need / TWO64
  }

  ghost function Rests(vols: seq<Vol>, maxItems: nat, smallSize: nat, totalNeed: nat): nat
    requires totalNeed > 0
  {
    if vols == [] then 0
    else Rests(vols[1..], maxItems, smallSize, totalNeed)
         + if Small(vols[0], smallSize) then 0 else (maxItems * Need(vols[0])) % TWO64 % totalNeed
  }

  /** `given` slots fall short of the exact share of `need` by `lost` parts of the total need. */
  ghost predicate Short(given: int, need: nat, lost: int, maxItems: nat, totalNeed: nat) {
    given * totalNeed == maxItems * need - lost
  }

  lemma ClaimAccount(need: nat, maxItems: nat, totalNeed: nat)
    requires maxItems < totalNeed
    ensures Short(Claim(need, maxItems, totalNeed), need,
                  TWO64 * Wrapped(maxItems, need) + (maxItems * need) % TWO64 % totalNeed, maxItems, totalNeed)
  {
    MulMono(maxItems, 0, need);
    var x := maxItems * need;
    var p := x % TWO64;
    assert x == TWO64 * (x / TWO64) + p;
    Euclid(p, totalNeed);
  }

  lemma Euclid(p: nat, d: nat)
    requires d > 0
    ensures p == (p / d) * d + p % d
  {
  }

  lemma ShortPlus(a: int, b: int, x: nat, y: nat, l: int, m: int, maxItems: nat, totalNeed: nat)
    requires Short(a, x, l, maxItems, totalNeed) && Short(b, y, m, maxItems, totalNeed)
    ensures Short(a + b, x + y, l + m, maxItems, totalNeed)
  {
    assert (a + b) * totalNeed == a * totalNeed + b * totalNeed;
    assert maxItems * (x + y) == maxItems * x + maxItems * y;
  }

  lemma ShortNone(maxItems: nat, totalNeed: nat)
    ensures Short(0, 0, 0, maxItems, totalNeed)
  {
  }

  /** Slots unassigned, times the total need, are the wraps times 2^64 plus the rests. */
  lemma {:induction false} ClaimedAccount(vols: seq<Vol>, maxItems: nat, smallSize: nat, totalNeed: nat)
    requires maxItems < totalNeed
    ensures Short(Claimed(vols, maxItems, smallSize, totalNeed), LargeNeed(vols, smallSize),
                  TWO64 * Wraps(vols, maxItems, smallSize) + Rests(vols, maxItems, smallSize, totalNeed),
                  maxItems, totalNeed)
    decreases |vols|
  {
    hide Claim, Wrapped, Short;
    if vols == [] {
      ShortNone(maxItems, totalNeed);
    } else {
      ClaimedAccount(vols[1..], maxItems, smallSize, totalNeed);
      if !Small(vols[0], smallSize) {
        var n := Need(vols[0]);
        ClaimAccount(n, maxItems, totalNeed);
        ShortPlus(Claim(n, maxItems, totalNeed), Claimed(vols[1..], maxItems, smallSize, totalNeed),
                  n, LargeNeed(vols[1..], smallSize),
                  TWO64 * Wrapped(maxItems, n) + (maxItems * n) % TWO64 % totalNeed,
                  TWO64 * Wraps(vols[1..], maxItems, smallSize) + Rests(vols[1..], maxItems, smallSize, totalNeed),
                  maxItems, totalNeed);
      }
    }
  }

  /** Each division loses less than the total need. */
  lemma {:induction false} RestsBound(vols: seq<Vol>, maxItems: nat, smallSize: nat, totalNeed: nat)
    requires totalNeed > 0
    ensures Rests(vols, maxItems, smallSize, totalNeed) + LargeCount(vols, smallSize)
            <= Times(LargeCount(vols, smallSize), totalNeed)
    decreases |vols|
  {
    hide Times;
    if vols == [] {
      TimesNext(0, totalNeed);
    } else {
      RestsBound(vols[1..], maxItems, smallSize, totalNeed);
      TimesNext(LargeCount(vols[1..], smallSize), totalNeed);
    }
  }

  function Times(n: int, d: int): int { n * d }

  lemma TimesNext(n: nat, d: nat)
    ensures Times(n + 1, d) == Times(n, d) + d && Times(0, d) == 0
  {
  }

  lemma LessTimes(a: int, b: int, d: nat)
    requires d > 0
    ensures a < b <==> a * d < b * d
  {
    if a < b {
      MulMono(d, 1, b - a);
    } else {
      MulMono(d, 0, a - b);
    }
  }

  lemma UnassignedScaled(c: nat, lost: nat, n: nat, maxItems: nat, need: nat)
    requires need > 0 && Short(c, need, lost, maxItems, need)
    ensures maxItems - c < n <==> lost < Times(n, need)
  {
    LessTimes(maxItems - c, n, need);
    assert (maxItems - c) * need == maxItems * need - c * need;
  }

  /** In the proportional case fewer slots than large volumes stay unassigned exactly when the wraps
      and the rests together stay below that many times the total need. */
  lemma RemainderExactly(vols: seq<Vol>, maxItems: nat, smallSize: nat)
    requires maxItems < LargeNeed(vols, smallSize)
    ensures var need, n := LargeNeed(vols, smallSize), LargeCount(vols, smallSize);
            && (maxItems - Claimed(vols, maxItems, smallSize, need) < n
                <==> TWO64 * Wraps(vols, maxItems, smallSize) + Rests(vols, maxItems, smallSize, need) < Times(n, need))
  {
    hide Claimed, Short, Wraps, Rests, Times;
    var need := LargeNeed(vols, smallSize);
    ClaimedAccount(vols, maxItems, smallSize, need);
    UnassignedScaled(Claimed(vols, maxItems, smallSize, need),
                     TWO64 * Wraps(vols, maxItems, smallSize) + Rests(vols, maxItems, smallSize, need),
                     LargeCount(vols, smallSize), maxItems, need);
  }

  /** So the promised bound holds when no product wraps, and, while the number of large volumes times
      the total need is at most 2^64, only then. */
  lemma RemainderPromise(vols: seq<Vol>, maxItems: nat, smallSize: nat)
    requires maxItems < LargeNeed(vols, smallSize)
    ensures var need, n := LargeNeed(vols, smallSize), LargeCount(vols, smallSize);
            && (Wraps(vols, maxItems, smallSize) == 0 ==> maxItems - Claimed(vols, maxItems, smallSize, need) < n)
            && (Times(n, need) <= TWO64 ==>
                  (maxItems - Claimed(vols, maxItems, smallSize, need) < n <==> Wraps(vols, maxItems, smallSize) == 0))
  {
    hide Claimed, Wraps, Rests, Times;
    RemainderExactly(vols, maxItems, smallSize);
    RestsBound(vols, maxItems, smallSize, LargeNeed(vols, smallSize));
    CountHanded(vols, smallSize);
  }

  /** A volume of 2^51 bytes and the default of 2^25 slots: the product is 2^64, and every slot stays
      unassigned. */
  lemma PetabyteVolumeGetsNothing()
    ensures var v := Vol(0x8_0000_0000_0000, 0);
            && Wraps([v], 0x200_0000, 0) == 1
            && LargePass([v], 0x200_0000, 0x200_0000, 0, LargeNeed([v], 0)) == ([v], 0x200_0000)
  {
    var v := Vol(0x8_0000_0000_0000, 0);
    assert [v][1..] == [] && Need(v) == 0x80_0000_0000;
    assert Wraps([v][1..], 0x200_0000, 0) == 0;
    assert LargeNeed([v], 0) == 0x80_0000_0000;
    OneLarge(v, 0x200_0000, 0x200_0000, 0x80_0000_0000);
    assert 0x200_0000 * 0x80_0000_0000 == TWO64;
  }

  // ---------------------------------------------------------------- both passes

  /** `update_cache_pool_size`. */
  function Resized(vols: seq<Vol>, maxItems: int, smallSize: nat): seq<Vol> {
    var (first, left) := SmallPass(vols, maxItems, smallSize);
    LargePass(first, ToInt32(left), left, smallSize, LargeNeed(vols, smallSize)).0
  }

  /** It divides by zero exactly when the first pass overdraws the budget and there are large volumes,
      none of them with a whole block. */
  method UpdateSizes(vols: array<Vol>, maxItems: int, smallSize: nat) returns (fault: bool)
    modifies vols
    ensures fault <==> var v0 := old(vols[..]);
                       && LargeNeed(v0, smallSize) == 0 < LargeCount(v0, smallSize)
                       && SmallPass(v0, maxItems, smallSize).1 < 0
    ensures vols[..] == if fault then SmallPass(old(vols[..]), maxItems, smallSize).0
                        else Resized(old(vols[..]), maxItems, smallSize)
  {
    hide LargePass, SmallPass;
    ghost var v0 := vols[..];
    var left, need := AllocSmall(vols, maxItems, smallSize);
    SmallKeepsLarge(v0, maxItems, smallSize);
    var rest;
    rest, fault := AllocLarge(vols, left, smallSize, need);
  }

  /** The first pass does not touch large volumes, the second no small ones. */
  lemma {:induction false} SmallKeepsLarge(vols: seq<Vol>, left: int, smallSize: nat)
    ensures var r := SmallPass(vols, left, smallSize).0;
            && LargeNeed(r, smallSize) == LargeNeed(vols, smallSize)
            && LargeCount(r, smallSize) == LargeCount(vols, smallSize)
    decreases |vols|
  {
    hide U32;
    if vols != [] {
      var left' := if Small(vols[0], smallSize) then SmallSize(vols[0], left).1 else left;
      SmallKeepsLarge(vols[1..], left', smallSize);
      assert SmallPass(vols, left, smallSize).0[1..] == SmallPass(vols[1..], left', smallSize).0;
    }
  }

  lemma {:induction false} LargeKeepsSmall(vols: seq<Vol>, left: int, maxItems: int, smallSize: nat, totalNeed: nat)
    ensures Handed(LargePass(vols, left, maxItems, smallSize, totalNeed).0, smallSize, true) ==
              Handed(vols, smallSize, true)
    decreases |vols|
  {
    hide U32, Share, ToInt32;
    if vols != [] {
      var share := Share(Need(vols[0]), maxItems, totalNeed);
      var left' := if Small(vols[0], smallSize) then left else LargeSize(share, left).1;
      LargeKeepsSmall(vols[1..], left', maxItems, smallSize, totalNeed);
      assert LargePass(vols, left, maxItems, smallSize, totalNeed).0[1..]
          == LargePass(vols[1..], left', maxItems, smallSize, totalNeed).0;
    }
  }

  /** The small volumes get no more than the budget exactly when none overcommits it. */
  lemma {:induction false} SmallTotal(vols: seq<Vol>, left: int, smallSize: nat)
    requires 0 <= left
    ensures Handed(SmallPass(vols, left, smallSize).0, smallSize, true) <= left <==> !Overcommits(vols, left, smallSize)
    decreases |vols|
  {
    if vols != [] {
      var r := SmallPass(vols, left, smallSize);
      if !Small(vols[0], smallSize) {
        SmallTotal(vols[1..], left, smallSize);
        assert r.0[1..] == SmallPass(vols[1..], left, smallSize).0;
      } else {
        var (size, left') := SmallSize(vols[0], left);
        assert r.0[1..] == SmallPass(vols[1..], left', smallSize).0;
        if left' >= 0 { SmallTotal(vols[1..], left', smallSize); }
      }
    }
  }

  /** Both passes together stay within the configured number of slots when no small volume overcommits
      it and the second pass is safe, and, for less than 2^32 slots, only then. */
  lemma TotalWithinBudget(vols: seq<Vol>, maxItems: nat, smallSize: nat)
    ensures var r := Resized(vols, maxItems, smallSize);
            var (first, left) := SmallPass(vols, maxItems, smallSize);
            var safe := SafeTail(first, ToInt32(left), left, smallSize, LargeNeed(vols, smallSize));
            var total := Handed(r, smallSize, true) + Handed(r, smallSize, false);
            && (Overcommits(vols, maxItems, smallSize) ==> total > maxItems)
            && (!Overcommits(vols, maxItems, smallSize) && safe ==> total <= maxItems)
            && (maxItems < TWO32 ==> (total <= maxItems <==> !Overcommits(vols, maxItems, smallSize) && safe))
  {
    hide LargePass, SmallPass, SafeTail, Claim, ToInt32, Overcommits;
    var (first, left) := SmallPass(vols, maxItems, smallSize);
    var need := LargeNeed(vols, smallSize);
    SmallTotal(vols, maxItems, smallSize);
    SmallExact(vols, maxItems, smallSize);
    SmallKeepsLarge(vols, maxItems, smallSize);
    LargeKeepsSmall(first, ToInt32(left), left, smallSize, need);
    if !Overcommits(vols, maxItems, smallSize) {
      LargeExact(first, left, smallSize);
    }
  }
}
