/** Error injection: sources with percentages per error type, and the decision taken for each
    received ack from a running count. */
module ErrorInjection {
  import opened Wrappers
  import opened MachineInts

  const NO_ERROR := 0
  const TIMEOUT := 1
  const EXCEPTION := 2
  const HBID_ERROR := 3

  datatype Key = Key(ip: nat, port: nat, rw: nat)
  datatype Item = Item(errType: nat, per: nat, chkType: nat)
  datatype Source = Source(key: Key, count: int, items: seq<Item>)

  /** The C remainder by ten: its sign is that of the dividend. */
  function CRem10(x: int): int { if x >= 0 then x % 10 else -((-x) % 10) }

  // ---------------------------------------------------------------- the decision

  /** The first item of this type. */
  function PerOf(items: seq<Item>, ty: nat): Option<nat> {
    if items == [] then None else if items[0].errType == ty then Some(items[0].per) else PerOf(items[1..], ty)
  }

  /** The window test: the lower bound is compared signed, the upper bound unsigned. */
  predicate Hit(cnt: int, start: int, per: nat) {
    CRem10(cnt) >= start && U32(CRem10(cnt)) < U32(start + per)
  }

  /** `Meet_Timeout_Error` and its two siblings: -1 for an error, else how far to move on. */
  function MeetOne(items: seq<Item>, ty: nat, cnt: int, start: int): int {
    var p := PerOf(items, ty);
    if p.None? then 0 else if Hit(cnt, start, p.value) then -1 else ToInt32(p.value)
  }

  /** What receive number `cnt` of a source meets. */
  function Meets(items: seq<Item>, cnt: int): nat {
    var t := MeetOne(items, TIMEOUT, cnt, 0);
    if t == -1 then TIMEOUT
    else
      var e := MeetOne(items, EXCEPTION, cnt, t);
      if e == -1 then EXCEPTION
      else if MeetOne(items, HBID_ERROR, cnt, ToInt32(t + e)) == -1 then HBID_ERROR
      else NO_ERROR
  }

  // ---------------------------------------------------------------- what a source should look like

  function Total(items: seq<Item>): nat { if items == [] then 0 else items[0].per + Total(items[1..]) }

  ghost predicate Known(ty: nat) { 1 <= ty <= 3 }

  ghost predicate Distinct(items: seq<Item>) {
    && (forall i :: 0 <= i < |items| ==> Known(items[i].errType))
    && (forall i, j :: 0 <= i < j < |items| ==> items[i].errType != items[j].errType)
  }

  function Per(items: seq<Item>, ty: nat): nat { var p := PerOf(items, ty); if p.Some? then p.value else 0 }

  /** With one item per type the percentages of the three types are all there is, in any order. */
  lemma {:induction false} TotalByType(items: seq<Item>)
    requires Distinct(items)
    ensures Total(items) == Per(items, TIMEOUT) + Per(items, EXCEPTION) + Per(items, HBID_ERROR)
  {
    if items != [] {
      TotalByType(items[1..]);
      Absent(items[1..], items[0].errType);
    }
  }

  lemma {:induction false} Absent(items: seq<Item>, ty: nat)
    requires forall i :: 0 <= i < |items| ==> items[i].errType != ty
    ensures PerOf(items, ty).None?
  {
    if items != [] { Absent(items[1..], ty); }
  }

  // ---------------------------------------------------------------- the rate

  /** Start of the window of a type. */
  function Low(items: seq<Item>, ty: nat): nat {
    if ty == TIMEOUT then 0
    else if ty == EXCEPTION then Per(items, TIMEOUT)
    else Per(items, TIMEOUT) + Per(items, EXCEPTION)
  }

  lemma NegativeWord(x: int)
    requires -10 < x < 0
    ensures U32(x) == 0x1_0000_0000 + x
  {
  }

  /** One window, for a count of either sign: below zero only multiples of ten can fall into it. */
  lemma HitExactly(cnt: int, start: nat, per: nat)
    requires start + per < 0x8000_0000
    ensures Hit(cnt, start, per) <==> start <= CRem10(cnt) < start + per
  {
    SmallWord(start + per);
    if CRem10(cnt) >= 0 { SmallWord(CRem10(cnt)); } else { NegativeWord(CRem10(cnt)); }
  }

  /** For every 32-bit percentage: one that wraps the upper bound of its window is never met. */
  lemma HitWide(cnt: int, start: nat, per: nat)
    requires start < 0x8000_0000 && per < 0x1_0000_0000
    ensures Hit(cnt, start, per) <==> start <= CRem10(cnt) < start + per && start + per < 0x1_0000_0000
  {
    if CRem10(cnt) >= 0 { SmallWord(CRem10(cnt)); }
    if start + per >= 0x1_0000_0000 {
      assert U32(start + per) == start + per - 0x1_0000_0000;
    }
  }

  lemma MeetOneExactly(items: seq<Item>, ty: nat, cnt: int, start: nat)
    requires start + Per(items, ty) < 0x8000_0000
    ensures MeetOne(items, ty, cnt, start) ==
            if start <= CRem10(cnt) < start + Per(items, ty) then -1 else Per(items, ty)
  {
    if PerOf(items, ty).Some? {
      HitExactly(cnt, start, Per(items, ty));
      SmallWord(Per(items, ty));
    }
  }

  /** The three windows follow each other and do not overlap. */
  lemma MeetsExactly(items: seq<Item>, cnt: int, ty: nat)
    requires Distinct(items) && Total(items) < 0x8000_0000 && Known(ty)
    ensures Meets(items, cnt) == ty <==> Low(items, ty) <= CRem10(cnt) < Low(items, ty) + Per(items, ty)
    ensures Meets(items, cnt) <= 3
  {
    hide MeetOne, CRem10;
    TotalByType(items);
    var t, e := Per(items, TIMEOUT), Per(items, EXCEPTION);
    MeetOneExactly(items, TIMEOUT, cnt, 0);
    MeetOneExactly(items, EXCEPTION, cnt, t);
    SmallWord(t + e);
    MeetOneExactly(items, HBID_ERROR, cnt, t + e);
  }

  /** How many of the `n` counts from `c` on meet the error. */
  function Plain(items: seq<Item>, ty: nat, c: int, n: nat): nat {
    if n == 0 then 0 else Plain(items, ty, c, n - 1) + if Meets(items, c + n - 1) == ty then 1 else 0
  }

  /** How many of the `n` receives of a source whose 32-bit count stands at `c` meet the error. */
  function Errors(items: seq<Item>, ty: nat, c: int, n: nat): nat {
    if n == 0 then 0 else Errors(items, ty, c, n - 1) + if Meets(items, ToInt32(c + n - 1)) == ty then 1 else 0
  }

  const MAX := 0x7fff_ffff
  const MIN := -0x8000_0000

  lemma WordIs(x: int)
    ensures MIN <= x <= MAX ==> ToInt32(x) == x
    ensures MAX < x <= MAX + 10 ==> ToInt32(x) == x - 0x1_0000_0000
  {
  }

  lemma {:induction false} ErrorsPlain(items: seq<Item>, ty: nat, c: int, n: nat)
    requires MIN <= c && c + n - 1 <= MAX
    ensures Errors(items, ty, c, n) == Plain(items, ty, c, n)
    decreases n
  {
    hide Meets, ToInt32;
    if n > 0 {
      ErrorsPlain(items, ty, c, n - 1);
      WordIs(c + n - 1);
    }
  }

  /** A window in which the count wraps: the receives before the wrap, and those after it. */
  lemma {:induction false} ErrorsWrap(items: seq<Item>, ty: nat, c: int, n: nat)
    requires 0 <= c <= MAX < c + n - 1 && n <= 10
    ensures Errors(items, ty, c, n) == Plain(items, ty, c, MAX + 1 - c) + Plain(items, ty, MIN, c + n - 1 - MAX)
    decreases n
  {
    hide Meets, ToInt32;
    WordIs(c + n - 1);
    assert c + n - 1 - 0x1_0000_0000 == MIN + (c + n - 1 - MAX) - 1;
    if c + n - 2 <= MAX {
      ErrorsPlain(items, ty, c, n - 1);
      assert Plain(items, ty, MIN, 0) == 0;
    } else {
      ErrorsWrap(items, ty, c, n - 1);
    }
  }

  lemma {:induction false} PlainSplit(items: seq<Item>, ty: nat, c: int, n: nat, m: nat)
    ensures Plain(items, ty, c, n + m) == Plain(items, ty, c, n) + Plain(items, ty, c + n, m)
    decreases m
  {
    hide Meets;
    if m > 0 {
      PlainSplit(items, ty, c, n, m - 1);
      assert c + (n + m) - 1 == c + n + m - 1;
    }
  }

  /** Ten receives later the decision is the same. */
  lemma Periodic(items: seq<Item>, c: int)
    requires c >= 0
    ensures Meets(items, c + 10) == Meets(items, c)
  {
    hide PerOf, U32, ToInt32;
    assert CRem10(c + 10) == CRem10(c);
  }

  lemma {:induction false} PlainPeriodic(items: seq<Item>, ty: nat, c: int, n: nat)
    requires c >= 0
    ensures Plain(items, ty, c + 10, n) == Plain(items, ty, c, n)
    decreases n
  {
    hide Meets;
    if n > 0 {
      PlainPeriodic(items, ty, c, n - 1);
      Periodic(items, c + n - 1);
      assert c + 10 + n - 1 == c + n - 1 + 10;
    }
  }

  lemma {:induction false} PlainMoves(items: seq<Item>, ty: nat, c: int, k: nat, n: nat)
    requires c >= 0
    ensures Plain(items, ty, c + 10 * k, n) == Plain(items, ty, c, n)
    decreases k
  {
    hide Meets, Plain;
    if k > 0 {
      PlainMoves(items, ty, c, k - 1, n);
      PlainPeriodic(items, ty, c + 10 * (k - 1), n);
      assert c + 10 * (k - 1) + 10 == c + 10 * k;
    }
  }

  function Upto(n: int, x: int): int { if n < x then n else x }

  /** From zero on the residues come in order. */
  lemma {:induction false} PlainFromZero(items: seq<Item>, ty: nat, n: nat)
    requires Distinct(items) && Total(items) < 0x8000_0000 && Known(ty) && n <= 10
    ensures Plain(items, ty, 0, n) == Upto(n, Low(items, ty) + Per(items, ty)) - Upto(n, Low(items, ty))
    decreases n
  {
    hide Meets;
    if n > 0 {
      PlainFromZero(items, ty, n - 1);
      MeetsExactly(items, n - 1, ty);
    }
  }

  /** The residues `lo` to `hi`, counted at their place in the cycle. */
  lemma PlainBetween(items: seq<Item>, ty: nat, lo: nat, hi: nat)
    requires Distinct(items) && Total(items) < 0x8000_0000 && Known(ty) && lo <= hi <= 10
    ensures Plain(items, ty, lo, hi - lo) == Window(items, ty, hi) - Window(items, ty, lo)
  {
    hide Plain, Low, Per;
    PlainSplit(items, ty, 0, lo, hi - lo);
    PlainFromZero(items, ty, hi);
    PlainFromZero(items, ty, lo);
  }

  /** How many of the residues below `n` belong to the type. */
  function Window(items: seq<Item>, ty: nat, n: int): int {
    Upto(n, Low(items, ty) + Per(items, ty)) - Upto(n, Low(items, ty))
  }

  /** Any ten counts from zero on meet every residue once. */
  lemma PlainTen(items: seq<Item>, ty: nat, c: int)
    requires Distinct(items) && Total(items) < 0x8000_0000 && Known(ty) && c >= 0
    ensures Plain(items, ty, c, 10) == Window(items, ty, 10)
  {
    hide Plain, Low, Per, Window;
    var r := c % 10;
    assert c == r + 10 * (c / 10);
    PlainMoves(items, ty, r, c / 10, 10);
    PlainSplit(items, ty, r, 10 - r, r);
    PlainBetween(items, ty, r, 10);
    PlainMoves(items, ty, 0, 1, r);
    PlainBetween(items, ty, 0, r);
    WindowZero(items, ty);
  }

  lemma WindowZero(items: seq<Item>, ty: nat)
    ensures Window(items, ty, 0) == 0
  {
  }

  /** The promised rate: with a sum of at most ten, any ten consecutive receives of a non-negative
      count that does not wrap meet each error exactly as often as its percentage says, and none the
      rest of the time, whatever the order of the items. */
  lemma RateExact(items: seq<Item>, c: int)
    requires Distinct(items) && Total(items) <= 10 && 0 <= c <= MAX - 9
    ensures forall ty :: Known(ty) ==> Errors(items, ty, c, 10) == Per(items, ty)
    ensures Errors(items, NO_ERROR, c, 10) == 10 - Total(items)
  {
    hide Errors, Plain, Total;
    TotalByType(items);
    forall ty | Known(ty) ensures Errors(items, ty, c, 10) == Per(items, ty) {
      ErrorsPlain(items, ty, c, 10);
      PlainTen(items, ty, c);
    }
    AllCounted(items, c, 10);
    assert Known(TIMEOUT) && Known(EXCEPTION) && Known(HBID_ERROR);
  }

  lemma {:induction false} AllCounted(items: seq<Item>, c: int, n: nat)
    requires Distinct(items) && Total(items) < 0x8000_0000
    ensures Errors(items, NO_ERROR, c, n) + Errors(items, TIMEOUT, c, n) + Errors(items, EXCEPTION, c, n)
            + Errors(items, HBID_ERROR, c, n) == n
    decreases n
  {
    hide Meets, ToInt32;
    if n > 0 {
      AllCounted(items, c, n - 1);
      MeetsExactly(items, ToInt32(c + n - 1), TIMEOUT);
    }
  }

  /** A lone item is not checked when it is added: it takes over at ten and beyond. */
  lemma LoneItem(item: Item, c: int)
    requires Known(item.errType) && item.per < 0x8000_0000 && 0 <= c <= MAX - 9
    ensures Errors([item], item.errType, c, 10) == Upto(item.per, 10)
  {
    hide Errors, Plain;
    var items := [item];
    assert items[1..] == [];
    assert Total(items) == item.per && Per(items, item.errType) == item.per && Distinct(items);
    forall ty | ty != item.errType ensures Per(items, ty) == 0 { assert PerOf(items[1..], ty).None?; }
    ErrorsPlain(items, item.errType, c, 10);
    PlainTen(items, item.errType, c);
  }

  // ---------------------------------------------------------------- counts below zero

  /** The error type whose window contains residue zero. */
  function First(items: seq<Item>): nat {
    if Per(items, TIMEOUT) > 0 then TIMEOUT
    else if Per(items, EXCEPTION) > 0 then EXCEPTION
    else if Per(items, HBID_ERROR) > 0 then HBID_ERROR
    else NO_ERROR
  }

  lemma BelowZero(items: seq<Item>, c: int, ty: nat)
    requires Distinct(items) && Total(items) < 0x8000_0000 && Known(ty) && c < 0
    ensures Meets(items, c) == ty <==> c % 10 == 0 && First(items) == ty
  {
    hide Meets;
    MeetsExactly(items, c, ty);
    assert CRem10(c) <= 0 && (CRem10(c) == 0 <==> c % 10 == 0);
  }

  lemma {:induction false} PlainBelowZero(items: seq<Item>, ty: nat, c: int, n: nat)
    requires Distinct(items) && Total(items) < 0x8000_0000 && Known(ty) && c + n <= 0 && n <= 10
    ensures Plain(items, ty, c, n) == if First(items) == ty && ZeroAmong(c, n) then 1 else 0
    decreases n
  {
    hide Meets, First, ZeroAmong;
    ZeroNext(c, n);
    if n > 0 {
      PlainBelowZero(items, ty, c, n - 1);
      BelowZero(items, c + n - 1, ty);
    }
  }

  /** One of the `n` counts from `c` on is a multiple of ten. */
  predicate ZeroAmong(c: int, n: nat) { (-c) % 10 < n }

  lemma ZeroNext(c: int, n: nat)
    requires n <= 10
    ensures !ZeroAmong(c, 0)
    ensures n > 0 ==> (ZeroAmong(c, n) <==> ZeroAmong(c, n - 1) || (c + n - 1) % 10 == 0)
    ensures n > 0 ==> !(ZeroAmong(c, n - 1) && (c + n - 1) % 10 == 0)
  {
  }

  /** While the count is negative, ten receives meet one error in all, of the first type that has
      a percentage. */
  lemma RateBelowZero(items: seq<Item>, c: int)
    requires Distinct(items) && Total(items) < 0x8000_0000 && MIN <= c && c + 10 <= 0
    ensures forall ty :: Known(ty) ==> Errors(items, ty, c, 10) == if First(items) == ty then 1 else 0
  {
    hide Errors, Plain;
    forall ty | Known(ty) ensures Errors(items, ty, c, 10) == if First(items) == ty then 1 else 0 {
      ErrorsPlain(items, ty, c, 10);
      PlainBelowZero(items, ty, c, 10);
    }
  }

  /** Ten receives that start below zero and end above it: the first ones meet nothing. */
  lemma RateAcrossZero(items: seq<Item>, ty: nat, c: int)
    requires Distinct(items) && Total(items) < 0x8000_0000 && Known(ty) && -10 < c < 0
    ensures Errors(items, ty, c, 10) == Window(items, ty, 10 + c)
  {
    hide Errors, Plain, Low, Per;
    ErrorsPlain(items, ty, c, 10);
    PlainBelowZero(items, ty, c, -c);
    PlainSplit(items, ty, c, -c, 10 + c);
    PlainFromZero(items, ty, 10 + c);
  }

  /** Ten receives in which the count wraps, `k` of them before the wrap: the largest count has
      residue seven and the smallest is eight below a multiple of ten. */
  lemma RateAcrossWrap(items: seq<Item>, ty: nat, k: nat)
    requires Distinct(items) && Total(items) < 0x8000_0000 && Known(ty) && 1 <= k <= 9
    ensures Errors(items, ty, MAX + 1 - k, 10) ==
            (if k <= 8 then Window(items, ty, 8) - Window(items, ty, 8 - k)
             else Window(items, ty, 10) - Window(items, ty, 9) + Window(items, ty, 8))
            + if k == 1 && First(items) == ty then 1 else 0
  {
    hide Errors, Plain, Low, Per, Window, First;
    var c := MAX + 1 - k;
    ErrorsWrap(items, ty, c, 10);
    PlainBelowZero(items, ty, MIN, 10 - k);
    assert (-MIN) % 10 == 8;
    if k <= 8 {
      assert c == (8 - k) + 10 * 214748364;
      PlainMoves(items, ty, 8 - k, 214748364, k);
      PlainBetween(items, ty, 8 - k, 8);
    } else {
      assert c == 9 + 10 * 214748363;
      PlainMoves(items, ty, 9, 214748363, 9);
      PlainSplit(items, ty, 9, 1, 8);
      PlainBetween(items, ty, 9, 10);
      PlainMoves(items, ty, 0, 1, 8);
      PlainBetween(items, ty, 0, 8);
      WindowZero(items, ty);
    }
  }

  /** How many residues, from zero on, ten receives from count `c` on cover; below zero only one
      receive in ten has residue zero, and a wrap skips the residues eight and nine. */
  function Reach(c: int): nat {
    if c <= -10 then 1
    else if c < 0 then 10 + c
    else if c <= MAX - 9 then 10
    else if c <= MAX - 7 then 8
    else if c < MAX then 0
    else 1
  }

  /** The error types in the order of their windows. */
  lemma Windows(items: seq<Item>, n: nat)
    requires Distinct(items)
    ensures Window(items, TIMEOUT, n) + Window(items, EXCEPTION, n) + Window(items, HBID_ERROR, n) ==
              Upto(n, Total(items))
    ensures forall ty :: Known(ty) ==> 0 <= Window(items, ty, n) <= Per(items, ty)
    ensures n >= Total(items) ==> forall ty :: Known(ty) ==> Window(items, ty, n) == Per(items, ty)
  {
    hide Per;
    TotalByType(items);
  }

  /** The promised rate over ten receives, for every 32-bit starting count: met exactly when the sum
      of the percentages does not exceed the reach of the window. */
  lemma RateExactly(items: seq<Item>, c: int)
    requires Distinct(items) && Total(items) <= 10 && MIN <= c <= MAX
    ensures (forall ty :: Known(ty) ==> Errors(items, ty, c, 10) == Per(items, ty)) <==> Total(items) <= Reach(c)
  {
    hide Errors, Total, Per;
    TotalByType(items);
    assert Known(TIMEOUT) && Known(EXCEPTION) && Known(HBID_ERROR);
    if c <= -10 {
      RateBelowZero(items, c);
    } else if c < 0 {
      forall ty | Known(ty)
        ensures Errors(items, ty, c, 10) == Window(items, ty, 10 + c)
      {
        RateAcrossZero(items, ty, c);
      }
      hide Window;
      Windows(items, 10 + c);
    } else if c <= MAX - 9 {
      RateExact(items, c);
    } else {
      WrapExactly(items, MAX + 1 - c);
    }
  }

  /** The nine starting counts whose window wraps. */
  lemma WrapExactly(items: seq<Item>, k: nat)
    requires Distinct(items) && Total(items) <= 10 && 1 <= k <= 9
    ensures (forall ty :: Known(ty) ==> Errors(items, ty, MAX + 1 - k, 10) == Per(items, ty))
            <==> Total(items) <= (if k >= 8 then 8 else if k > 1 then 0 else 1)
  {
    hide Errors, Total, Per;
    TotalByType(items);
    assert Known(TIMEOUT) && Known(EXCEPTION) && Known(HBID_ERROR);
    RateAcrossWrap(items, TIMEOUT, k);
    RateAcrossWrap(items, EXCEPTION, k);
    RateAcrossWrap(items, HBID_ERROR, k);
    assert forall ty :: Known(ty) ==> ty == TIMEOUT || ty == EXCEPTION || ty == HBID_ERROR;
  }

  // ---------------------------------------------------------------- the list of sources

  /** Position of the first source with this key, or the length of the list. */
  function Find(srcs: seq<Source>, key: Key): (i: nat)
    ensures i <= |srcs| && (i < |srcs| ==> srcs[i].key == key)
    ensures forall j :: 0 <= j < i ==> srcs[j].key != key
  {
    if srcs == [] then 0 else if srcs[0].key == key then 0 else 1 + Find(srcs[1..], key)
  }

  /** The source that a command or a receive of this key concerns. */
  function SourceOf(srcs: seq<Source>, key: Key): Option<Source> {
    var i := Find(srcs, key);
    if i < |srcs| then Some(srcs[i]) else None
  }

  /** What the next receive answers: without a source no error, else the decision for its count. */
  function Answer(srcs: seq<Source>, key: Key): nat {
    var s := SourceOf(srcs, key);
    if s.None? then NO_ERROR else Meets(s.value.items, ToInt32(s.value.count))
  }

  predicate HasType(items: seq<Item>, ty: nat) { exists i :: 0 <= i < |items| && items[i].errType == ty }

  /** `add_err_inject_test_item`: the percentage is cut to eight bits; the sum, in 32 bits, is checked
      only when the source exists already. The memory of a new source is cleared, and so its count. */
  function AddItem(srcs: seq<Source>, key: Key, errType: nat, per: nat, chk: nat): seq<Source> {
    var i, item := Find(srcs, key), Item(errType, U8(per), chk);
    if i == |srcs| then srcs + [Source(key, 0, [item])]
    else if HasType(srcs[i].items, errType) || U32(Total(srcs[i].items) + item.per) >= 10 then srcs
    else srcs[i := srcs[i].(items := srcs[i].items + [item])]
  }

  /** Sum of the percentages of the other types. */
  function Others(items: seq<Item>, ty: nat): nat {
    if items == [] then 0 else Others(items[1..], ty) + if items[0].errType == ty then 0 else items[0].per
  }

  function SetItem(items: seq<Item>, ty: nat, per: nat, chk: nat): (r: seq<Item>)
    ensures |r| == |items|
  {
    if items == [] then []
    else [if items[0].errType == ty then Item(ty, per, chk) else items[0]] + SetItem(items[1..], ty, per, chk)
  }

  /** `modify_err_inject_test_item`: the others are summed in eight bits, and the check is made in
      32-bit unsigned arithmetic. */
  function ModifyItem(srcs: seq<Source>, key: Key, ty: nat, per: nat, chk: nat): seq<Source> {
    var i := Find(srcs, key);
    if i == |srcs| || !HasType(srcs[i].items, ty) || U32(U8(Others(srcs[i].items, ty)) + per) >= 10 then srcs
    else srcs[i := srcs[i].(items := SetItem(srcs[i].items, ty, per, chk))]
  }

  function DropItem(items: seq<Item>, ty: nat): seq<Item> {
    if items == [] then [] else if items[0].errType == ty then items[1..] else [items[0]] + DropItem(items[1..], ty)
  }

  /** `remove_err_inject_test_item`: a source left without items goes too. */
  function RemoveItem(srcs: seq<Source>, key: Key, ty: nat): seq<Source> {
    var i := Find(srcs, key);
    if i == |srcs| then srcs
    else
      var items := DropItem(srcs[i].items, ty);
      if items == [] then srcs[..i] + srcs[i + 1..] else srcs[i := srcs[i].(items := items)]
  }

  ghost predicate ItemsOk(items: seq<Item>) {
    Distinct(items) && (|items| >= 2 ==> Total(items) < 10) && forall i :: 0 <= i < |items| ==> items[i].per < 256
  }

  /** One source per key, one item per type, and a sum below ten as soon as there are two items. */
  ghost predicate SourcesOk(srcs: seq<Source>) {
    && (forall i :: 0 <= i < |srcs| ==> ItemsOk(srcs[i].items))
    && (forall i, j :: 0 <= i < j < |srcs| ==> srcs[i].key != srcs[j].key)
  }

  lemma {:induction false} TotalSnoc(items: seq<Item>, x: Item)
    ensures Total(items + [x]) == Total(items) + x.per
  {
    if items == [] {
      assert items + [x] == [x] && [x][1..] == [];
    } else {
      TotalSnoc(items[1..], x);
      assert (items + [x])[1..] == items[1..] + [x];
    }
  }

  /** One item below 256, or several that sum to less than ten. */
  lemma TotalSmall(items: seq<Item>)
    requires ItemsOk(items)
    ensures Total(items) < 256
  {
    if |items| == 1 { assert items[1..] == []; }
  }

  lemma AddItemOk(srcs: seq<Source>, key: Key, errType: nat, per: nat, chk: nat)
    requires SourcesOk(srcs) && Known(errType)
    ensures SourcesOk(AddItem(srcs, key, errType, per, chk))
  {
    hide Total, U32;
    var i, item := Find(srcs, key), Item(errType, U8(per), chk);
    if i < |srcs| {
      assert ItemsOk(srcs[i].items);
      TotalSnoc(srcs[i].items, item);
      TotalSmall(srcs[i].items);
      SmallWord(Total(srcs[i].items) + item.per);
    }
  }

  lemma {:induction false} SetItemFacts(items: seq<Item>, ty: nat, per: nat, chk: nat)
    requires Distinct(items)
    ensures forall i :: 0 <= i < |items| ==> SetItem(items, ty, per, chk)[i].errType == items[i].errType
    ensures forall i :: 0 <= i < |items| ==>
              SetItem(items, ty, per, chk)[i].per == items[i].per || SetItem(items, ty, per, chk)[i].per == per
    ensures Total(SetItem(items, ty, per, chk)) == Others(items, ty) + if HasType(items, ty) then per else 0
  {
    if items != [] {
      SetItemFacts(items[1..], ty, per, chk);
      var r := SetItem(items, ty, per, chk);
      assert r[1..] == SetItem(items[1..], ty, per, chk);
      assert HasType(items, ty) <==> items[0].errType == ty || HasType(items[1..], ty) by {
        if HasType(items, ty) && items[0].errType != ty {
          var i :| 0 <= i < |items| && items[i].errType == ty;
          assert items[1..][i - 1].errType == ty;
        }
      }
    }
  }

  lemma {:induction false} OthersBounded(items: seq<Item>, ty: nat)
    ensures Others(items, ty) <= Total(items)
  {
    if items != [] { OthersBounded(items[1..], ty); }
  }

  /** A lone item has no others; with two items the sum is below ten. Either way eight bits do. */
  lemma OthersFit(items: seq<Item>, ty: nat)
    requires ItemsOk(items) && HasType(items, ty)
    ensures Others(items, ty) < 10
  {
    OthersBounded(items, ty);
    if |items| == 1 { assert items[1..] == [] && Others(items[1..], ty) == 0; }
  }

  /** A percentage that a 32-bit sum cannot wrap. */
  lemma ModifyItemOk(srcs: seq<Source>, key: Key, ty: nat, per: nat, chk: nat)
    requires SourcesOk(srcs) && per < 0xffff_fff0
    ensures SourcesOk(ModifyItem(srcs, key, ty, per, chk))
  {
    hide Total, Others, SetItem;
    var i := Find(srcs, key);
    if i < |srcs| && HasType(srcs[i].items, ty) {
      assert ItemsOk(srcs[i].items);
      OthersFit(srcs[i].items, ty);
      SetItemFacts(srcs[i].items, ty, per, chk);
      assert U32(Others(srcs[i].items, ty) + per) == Others(srcs[i].items, ty) + per;
    }
  }

  lemma {:induction false} DropItemFacts(items: seq<Item>, ty: nat)
    requires Distinct(items)
    ensures Distinct(DropItem(items, ty)) && |DropItem(items, ty)| <= |items|
    ensures forall x :: x in DropItem(items, ty) ==> x in items
    ensures Total(DropItem(items, ty)) <= Total(items)
  {
    if items != [] && items[0].errType != ty {
      DropItemFacts(items[1..], ty);
      var r := DropItem(items[1..], ty);
      forall j | 0 <= j < |r| ensures items[0].errType != r[j].errType {
        assert r[j] in items[1..];
      }
      assert ([items[0]] + r)[1..] == r;
    }
  }

  lemma RemoveItemOk(srcs: seq<Source>, key: Key, ty: nat)
    requires SourcesOk(srcs)
    ensures SourcesOk(RemoveItem(srcs, key, ty))
  {
    hide Total, DropItem;
    var i := Find(srcs, key);
    if i < |srcs| {
      assert ItemsOk(srcs[i].items);
      DropItemFacts(srcs[i].items, ty);
      var r := DropItem(srcs[i].items, ty);
      forall j | 0 <= j < |r| ensures r[j].per < 256 { assert r[j] in srcs[i].items; }
    }
  }

  /** A receive: the matching source counts it, in 32 bits. */
  function Count(srcs: seq<Source>, key: Key): seq<Source> {
    var i := Find(srcs, key);
    if i == |srcs| then srcs else srcs[i := srcs[i].(count := ToInt32(srcs[i].count + 1))]
  }

  datatype Op = Add(key: Key, ty: nat, per: nat, chk: nat) | Modify(key: Key, ty: nat, per: nat, chk: nat)
              | Remove(key: Key, ty: nat) | Receive(key: Key)

  function Apply(srcs: seq<Source>, op: Op): seq<Source> {
    match op
    case Add(key, ty, per, chk) => AddItem(srcs, key, ty, per, chk)
    case Modify(key, ty, per, chk) => ModifyItem(srcs, key, ty, per, chk)
    case Remove(key, ty) => RemoveItem(srcs, key, ty)
    case Receive(key) => Count(srcs, key)
  }

  function ApplyAll(srcs: seq<Source>, ops: seq<Op>): seq<Source>
    decreases |ops|
  {
    if ops == [] then srcs else ApplyAll(Apply(srcs, ops[0]), ops[1..])
  }

  ghost predicate InRange(op: Op) { (op.Add? ==> Known(op.ty)) && (op.Modify? ==> op.per < 0xffff_fff0) }

  /** Over every sequence of commands and receives: one source per key, one item per type, sum below
      ten from two items on. */
  lemma {:induction false} CommandsKeepOrder(srcs: seq<Source>, ops: seq<Op>)
    requires SourcesOk(srcs) && forall i :: 0 <= i < |ops| ==> InRange(ops[i])
    ensures SourcesOk(ApplyAll(srcs, ops))
    decreases |ops|
  {
    hide SourcesOk, AddItem, ModifyItem, RemoveItem, Count;
    if ops != [] {
      assert InRange(ops[0]);
      match ops[0] {
        case Add(key, ty, per, chk) => AddItemOk(srcs, key, ty, per, chk);
        case Modify(key, ty, per, chk) => ModifyItemOk(srcs, key, ty, per, chk);
        case Remove(key, ty) => RemoveItemOk(srcs, key, ty);
        case Receive(key) => CountOk(srcs, key);
      }
      CommandsKeepOrder(Apply(srcs, ops[0]), ops[1..]);
    }
  }

  lemma CountOk(srcs: seq<Source>, key: Key)
    requires SourcesOk(srcs)
    ensures SourcesOk(Count(srcs, key))
  {
    hide ItemsOk, ToInt32;
  }

  function Receives(ops: seq<Op>): nat {
    if ops == [] then 0 else (if ops[0].Receive? then 1 else 0) + Receives(ops[1..])
  }

  /** No count is negative, and none exceeds `n`. */
  ghost predicate Counted(srcs: seq<Source>, n: nat) { forall i :: 0 <= i < |srcs| ==> 0 <= srcs[i].count <= n }

  /** A command creates sources with count zero and leaves the other counts alone; a receive adds one
      to one count. */
  lemma CountedStep(srcs: seq<Source>, op: Op, n: nat)
    requires Counted(srcs, n) && n + (if op.Receive? then 1 else 0) <= MAX
    ensures Counted(Apply(srcs, op), n + if op.Receive? then 1 else 0)
  {
    hide ToInt32, Total, Others, SetItem, DropItem, HasType;
    if op.Receive? {
      var i := Find(srcs, op.key);
      if i < |srcs| { SmallWord(srcs[i].count + 1); }
    }
  }

  /** However commands and receives interleave, no count is negative before 2^31 receives. */
  lemma {:induction false} CountsUp(srcs: seq<Source>, ops: seq<Op>, n: nat)
    requires Counted(srcs, n) && n + Receives(ops) <= MAX
    ensures Counted(ApplyAll(srcs, ops), n + Receives(ops))
    decreases |ops|
  {
    hide Apply, Counted;
    if ops != [] {
      CountedStep(srcs, ops[0], n);
      CountsUp(Apply(srcs, ops[0]), ops[1..], n + if ops[0].Receive? then 1 else 0);
    }
  }

  /** The promised rate, for every history of commands and receives from the start: whenever the sum of
      a source is at most ten, its next ten receives meet each error exactly as often as its
      percentage says, as long as the history and those ten are at most 2^31 receives. */
  lemma RateKept(ops: seq<Op>, i: nat)
    requires (forall j :: 0 <= j < |ops| ==> InRange(ops[j])) && Receives(ops) + 10 <= MAX + 1
    requires i < |ApplyAll([], ops)| && Total(ApplyAll([], ops)[i].items) <= 10
    ensures var src := ApplyAll([], ops)[i];
            forall ty :: Known(ty) ==> Errors(src.items, ty, src.count, 10) == Per(src.items, ty)
  {
    hide Errors, Total, Apply, ApplyAll;
    CommandsKeepOrder([], ops);
    CountsUp([], ops, 0);
    var src := ApplyAll([], ops)[i];
    assert ItemsOk(src.items) && 0 <= src.count <= Receives(ops);
    RateExact(src.items, src.count);
  }

  /** Beyond 31 bits the check wraps: a modification is accepted exactly when the true sum of the
      others and the new percentage, modulo 2^32, is below ten. */
  lemma ModifyAcceptsExactly(src: Source, ty: nat, per: nat, chk: nat)
    requires ItemsOk(src.items) && HasType(src.items, ty) && per < 0x1_0000_0000
    ensures ModifyItem([src], src.key, ty, per, chk) == [src.(items := SetItem(src.items, ty, per, chk))]
         <==> Others(src.items, ty) + per < 10 || Others(src.items, ty) + per >= 0x1_0000_0000
              || SetItem(src.items, ty, per, chk) == src.items
  {
    OthersFit(src.items, ty);
    assert Find([src], src.key) == 0;
    var r := [src.(items := SetItem(src.items, ty, per, chk))];
    assert [src][0 := r[0]] == r;
    assert [src][0].items != r[0].items ==> [src] != r;
  }

  // ---------------------------------------------------------------- in place

  lemma {:induction false} SumSnoc(items: seq<Item>, k: nat, ty: nat)
    requires k < |items|
    ensures Total(items[..k + 1]) == Total(items[..k]) + items[k].per
    ensures Others(items[..k + 1], ty) == Others(items[..k], ty) + if items[k].errType == ty then 0 else items[k].per
    decreases k
  {
    if k > 0 {
      SumSnoc(items[1..], k - 1, ty);
      assert items[..k + 1][1..] == items[1..][..k] && items[..k][1..] == items[1..][..k - 1];
    } else {
      assert items[..1][1..] == [] && items[..0] == [];
    }
  }

  lemma SumFits(a: nat, b: nat)
    ensures U8(U8(a) + b) == U8(a + b)
  {
  }

  lemma WordSum(a: nat, b: nat)
    ensures U32(U32(a) + b) == U32(a + b)
  {
  }

  class Injector {
    var sources: seq<Source>

    constructor ()
      ensures sources == [] && SourcesOk(sources)
    {
      sources := [];
    }

    /** The walk over the list of sources. */
    method FindSource(key: Key) returns (i: nat)
      ensures i == Find(sources, key)
    {
      i := 0;
      while i < |sources| && sources[i].key != key
        invariant i <= |sources| && forall j :: 0 <= j < i ==> sources[j].key != key
      {
        i := i + 1;
      }
      var f := Find(sources, key);
      assert !(f < i) && !(i < f);
    }

    /** The walk over the items: stops at an item of the same type. */
    method SumItems(items: seq<Item>, ty: nat) returns (total: nat, found: bool)
      ensures found <==> HasType(items, ty)
      ensures !found ==> total == U32(Total(items))
    {
      hide U32;
      total, found := 0, false;
      var k := 0;
      SmallWord(0);
      while k < |items|
        invariant 0 <= k <= |items| && total == U32(Total(items[..k]))
        invariant forall j :: 0 <= j < k ==> items[j].errType != ty
      {
        SumSnoc(items, k, ty);
        WordSum(Total(items[..k]), items[k].per);
        total := U32(total + items[k].per);
        if items[k].errType == ty {
          found := true;
          return;
        }
        k := k + 1;
      }
      assert items[..k] == items;
    }

    method AddTestItem(key: Key, ty: nat, per: nat, chk: nat)
      modifies this
      ensures sources == AddItem(old(sources), key, ty, per, chk)
    {
      hide Find;
      var item := Item(ty, U8(per), chk);
      var i := FindSource(key);
      if i == |sources| {
        sources := sources + [Source(key, 0, [item])];
      } else {
        var total, found := SumItems(sources[i].items, ty);
        WordSum(Total(sources[i].items), item.per);
        if !found && U32(total + item.per) < 10 {
          sources := sources[i := sources[i].(items := sources[i].items + [item])];
        }
      }
    }

    /** The sum over the other types, kept in eight bits, and whether the type was seen. */
    method SumOthers(items: seq<Item>, ty: nat) returns (total: nat, found: bool)
      ensures found <==> HasType(items, ty)
      ensures total == U8(Others(items, ty))
    {
      hide U8;
      total, found := 0, false;
      var k := 0;
      assert U8(0) == 0 by { ZeroByte(); }
      while k < |items|
        invariant 0 <= k <= |items| && total == U8(Others(items[..k], ty))
        invariant found <==> exists j :: 0 <= j < k && items[j].errType == ty
      {
        SumSnoc(items, k, ty);
        if items[k].errType == ty {
          found := true;
        } else {
          SumFits(Others(items[..k], ty), items[k].per);
          total := U8(total + items[k].per);
        }
        k := k + 1;
      }
      assert items[..k] == items;
    }

    method ModifyTestItem(key: Key, ty: nat, per: nat, chk: nat)
      modifies this
      ensures sources == ModifyItem(old(sources), key, ty, per, chk)
    {
      hide Find, U8, U32, Others, SetItem;
      var i := FindSource(key);
      if i < |sources| {
        var total, found := SumOthers(sources[i].items, ty);
        if found && U32(total + per) < 10 {
          sources := sources[i := sources[i].(items := SetItem(sources[i].items, ty, per, chk))];
        }
      }
    }

    method RemoveTestItem(key: Key, ty: nat)
      modifies this
      ensures sources == RemoveItem(old(sources), key, ty)
    {
      hide Find;
      var i := FindSource(key);
      if i < |sources| {
        var items := DropItem(sources[i].items, ty);
        if items == [] {
          sources := sources[..i] + sources[i + 1..];
        } else {
          sources := sources[i := sources[i].(items := items)];
        }
      }
    }

    /** `meet_error_inject_test`: the matching source counts the receive and decides from the count
        before it; no source, no error. */
    method MeetTest(key: Key) returns (err: nat)
      modifies this
      ensures var i := Find(old(sources), key);
              && sources == Count(old(sources), key)
              && if i == |old(sources)| then err == NO_ERROR
                 else err == Meets(old(sources)[i].items, ToInt32(ToInt32(old(sources)[i].count + 1) - 1))
      ensures err == Answer(old(sources), key)
      ensures forall j :: 0 <= j < |old(sources)| && old(sources)[j].key != key ==> sources[j] == old(sources)[j]
      ensures var i := Find(old(sources), key);
              i < |old(sources)| && MIN <= old(sources)[i].count < MAX ==>
                sources[i] == old(sources)[i].(count := old(sources)[i].count + 1)
    {
      hide Find, ToInt32, MeetOne;
      err := NO_ERROR;
      var i := FindSource(key);
      if i < |sources| {
        SameCount(sources[i].count);
        WordIs(sources[i].count + 1);
        sources := sources[i := sources[i].(count := ToInt32(sources[i].count + 1))];
        var src := sources[i];
        var cnt := ToInt32(src.count - 1);
        var t := MeetOne(src.items, TIMEOUT, cnt, 0);
        if t == -1 { return TIMEOUT; }
        var e := MeetOne(src.items, EXCEPTION, cnt, t);
        if e == -1 { return EXCEPTION; }
        var h := MeetOne(src.items, HBID_ERROR, cnt, ToInt32(t + e));
        if h == -1 { return HBID_ERROR; }
      }
    }
  }

  lemma SameCount(c: int)
    ensures ToInt32(ToInt32(c + 1) - 1) == ToInt32(c)
  {
  }

  /** The decision is taken for the count as it was before the receive, also where it wraps. */
  lemma CountBefore(c: int)
    requires -0x8000_0000 <= c < 0x8000_0000
    ensures ToInt32(ToInt32(c + 1) - 1) == c
  {
  }

  lemma ZeroByte()
    ensures U8(0) == 0
  {
  }
}
