/** Error injection over whole runs: what each command does to the source of each key, and the answers
    that a list of commands and receives gives. */
module ErrorRuns {
  import opened Wrappers
  import opened MachineInts
  import opened ErrorInjection

  // ---------------------------------------------------------------- by key

  lemma FindIs(srcs: seq<Source>, key: Key, i: nat)
    requires i <= |srcs| && (i < |srcs| ==> srcs[i].key == key) && forall j :: 0 <= j < i ==> srcs[j].key != key
    ensures Find(srcs, key) == i
  {
    var f := Find(srcs, key);
    assert !(f < i) && !(i < f);
  }

  /** Replacing a source by one with the same key is seen under that key only. */
  lemma FindReplaced(srcs: seq<Source>, i: nat, src: Source, k: Key)
    requires i < |srcs| && i == Find(srcs, src.key)
    ensures SourceOf(srcs[i := src], k) == if k == src.key then Some(src) else SourceOf(srcs, k)
  {
    FindIs(srcs[i := src], k, Find(srcs, k));
  }

  lemma FindAppended(srcs: seq<Source>, src: Source, k: Key)
    requires Find(srcs, src.key) == |srcs|
    ensures SourceOf(srcs + [src], k) == if k == src.key then Some(src) else SourceOf(srcs, k)
  {
    var f := Find(srcs, k);
    FindIs(srcs + [src], k, if f == |srcs| && k != src.key then |srcs| + 1 else f);
  }

  lemma FindRemoved(srcs: seq<Source>, i: nat, k: Key)
    requires i < |srcs| && forall a, b :: 0 <= a < b < |srcs| ==> srcs[a].key != srcs[b].key
    ensures SourceOf(srcs[..i] + srcs[i + 1..], k) == if k == srcs[i].key then None else SourceOf(srcs, k)
  {
    var f, r := Find(srcs, k), srcs[..i] + srcs[i + 1..];
    assert forall j :: 0 <= j < |r| ==> r[j] == srcs[if j < i then j else j + 1];
    FindIs(r, k, if k == srcs[i].key then |r| else if f < i then f else f - 1);
  }

  /** A receive adds one to the 32-bit count of its source and changes nothing else. */
  lemma ReceiveExactly(srcs: seq<Source>, key: Key, k: Key)
    ensures var s, r := SourceOf(srcs, k), SourceOf(Apply(srcs, Receive(key)), k);
            r == if k == key && s.Some? then Some(s.value.(count := ToInt32(s.value.count + 1))) else s
    ensures |Apply(srcs, Receive(key))| == |srcs|
  {
    hide Find, ToInt32;
    var i := Find(srcs, key);
    if i < |srcs| { FindReplaced(srcs, i, srcs[i].(count := ToInt32(srcs[i].count + 1)), k); }
  }

  /** A new key gets a source with count zero and this one item, whatever its percentage. A known key
      gets the item exactly if it has none of the type and the sum stays below ten. */
  lemma AddExactly(srcs: seq<Source>, key: Key, ty: nat, per: nat, chk: nat, k: Key)
    requires SourcesOk(srcs)
    ensures var s, r := SourceOf(srcs, k), SourceOf(Apply(srcs, Add(key, ty, per, chk)), k);
            var item := Item(ty, per % 256, chk);
            if k != key then r == s
            else if s.None? then r == Some(Source(key, 0, [item]))
            else if HasType(s.value.items, ty) || Total(s.value.items) + per % 256 >= 10 then r == s
            else r == Some(s.value.(items := s.value.items + [item]))
  {
    hide Find, U32, Total, HasType;
    var i, item := Find(srcs, key), Item(ty, U8(per), chk);
    if i == |srcs| {
      FindAppended(srcs, Source(key, 0, [item]), k);
    } else {
      SumIs(srcs, i, item.per);
      hide SourcesOk;
      FindReplaced(srcs, i, srcs[i].(items := srcs[i].items + [item]), k);
    }
  }

  lemma SumIs(srcs: seq<Source>, i: nat, per: nat)
    requires SourcesOk(srcs) && i < |srcs| && per < 256
    ensures U32(Total(srcs[i].items) + per) == Total(srcs[i].items) + per
  {
    hide Total, U32;
    assert ItemsOk(srcs[i].items);
    TotalSmall(srcs[i].items);
    SmallWord(Total(srcs[i].items) + per);
  }

  lemma OthersAre(srcs: seq<Source>, i: nat, ty: nat, per: nat)
    requires SourcesOk(srcs) && i < |srcs| && HasType(srcs[i].items, ty) && per < 0xffff_fff0
    ensures U32(U8(Others(srcs[i].items, ty)) + per) == Others(srcs[i].items, ty) + per
  {
    hide Others;
    assert ItemsOk(srcs[i].items);
    OthersFit(srcs[i].items, ty);
  }

  lemma {:induction false} PerSet(items: seq<Item>, ty: nat, per: nat, chk: nat, t: nat)
    ensures PerOf(SetItem(items, ty, per, chk), t) ==
            if t == ty && PerOf(items, ty).Some? then Some(per) else PerOf(items, t)
  {
    if items != [] {
      PerSet(items[1..], ty, per, chk, t);
      assert SetItem(items, ty, per, chk)[1..] == SetItem(items[1..], ty, per, chk);
    }
  }

  lemma {:induction false} SetItemAt(items: seq<Item>, ty: nat, per: nat, chk: nat, j: nat)
    requires j < |items|
    ensures SetItem(items, ty, per, chk)[j] == if items[j].errType == ty then Item(ty, per, chk) else items[j]
    decreases j
  {
    if j > 0 {
      SetItemAt(items[1..], ty, per, chk, j - 1);
      assert SetItem(items, ty, per, chk)[1..] == SetItem(items[1..], ty, per, chk);
    }
  }

  lemma {:induction false} PerDropped(items: seq<Item>, ty: nat, t: nat)
    requires Distinct(items)
    ensures PerOf(DropItem(items, ty), t) == if t == ty then None else PerOf(items, t)
    ensures DropItem(items, ty) == [] <==> forall i :: 0 <= i < |items| ==> items[i].errType == ty
  {
    if items != [] {
      if items[0].errType == ty {
        Absent(items[1..], ty);
        assert items[1..] != [] ==> items[1].errType != ty;
      } else {
        PerDropped(items[1..], ty, t);
        assert DropItem(items, ty)[1..] == DropItem(items[1..], ty);
      }
    }
  }

  lemma {:induction false} TypeHasPer(items: seq<Item>, ty: nat)
    ensures HasType(items, ty) <==> PerOf(items, ty).Some?
  {
    if PerOf(items, ty).None? {
      NoneOf(items, ty);
    } else {
      SomeOf(items, ty);
    }
  }

  lemma {:induction false} NoneOf(items: seq<Item>, ty: nat)
    requires PerOf(items, ty).None?
    ensures forall i :: 0 <= i < |items| ==> items[i].errType != ty
  {
    if items != [] {
      NoneOf(items[1..], ty);
      assert forall i :: 0 < i < |items| ==> items[i] == items[1..][i - 1];
    }
  }

  lemma {:induction false} SomeOf(items: seq<Item>, ty: nat)
    requires PerOf(items, ty).Some?
    ensures exists i :: 0 <= i < |items| && items[i].errType == ty
  {
    if items[0].errType != ty {
      SomeOf(items[1..], ty);
      var i :| 0 <= i < |items[1..]| && items[1..][i].errType == ty;
      assert items[i + 1].errType == ty;
    }
  }

  /** A modification takes effect exactly if the source has the type and the others leave room; then
      this type has the new percentage, the other types theirs, and the count stays. */
  lemma ModifyExactly(srcs: seq<Source>, key: Key, ty: nat, per: nat, chk: nat, k: Key, t: nat)
    requires SourcesOk(srcs) && per < 0xffff_fff0
    ensures var s, r := SourceOf(srcs, k), SourceOf(Apply(srcs, Modify(key, ty, per, chk)), k);
            if k != key || s.None? || PerOf(s.value.items, ty).None? || Others(s.value.items, ty) + per >= 10
            then r == s
            else && r.Some? && r.value.count == s.value.count && |r.value.items| == |s.value.items|
                 && PerOf(r.value.items, t) == (if t == ty then Some(per) else PerOf(s.value.items, t))
                 && forall j :: 0 <= j < |s.value.items| ==>
                      r.value.items[j] == var x := s.value.items[j]; if x.errType == ty then Item(ty, per, chk) else x
  {
    hide Find, U8, U32, Total, Others, SetItem, HasType, PerOf;
    var i := Find(srcs, key);
    if i < |srcs| {
      var items := srcs[i].items;
      TypeHasPer(items, ty);
      if HasType(items, ty) {
        OthersAre(srcs, i, ty, per);
        hide SourcesOk;
        PerSet(items, ty, per, chk, t);
        forall j | 0 <= j < |items|
          ensures SetItem(items, ty, per, chk)[j] == if items[j].errType == ty then Item(ty, per, chk) else items[j]
        {
          SetItemAt(items, ty, per, chk, j);
        }
        FindReplaced(srcs, i, srcs[i].(items := SetItem(items, ty, per, chk)), k);
      }
    }
  }

  /** A removal leaves the other types and the count of the source, and drops the source exactly if
      it has no other type. */
  lemma RemoveExactly(srcs: seq<Source>, key: Key, ty: nat, k: Key, t: nat)
    requires SourcesOk(srcs)
    ensures var s, r := SourceOf(srcs, k), SourceOf(Apply(srcs, Remove(key, ty)), k);
            if k != key || s.None? then r == s
            else if forall i :: 0 <= i < |s.value.items| ==> s.value.items[i].errType == ty then r == None
            else && r.Some? && r.value.count == s.value.count
                 && PerOf(r.value.items, t) == if t == ty then None else PerOf(s.value.items, t)
  {
    hide Find, Total, DropItem, PerOf;
    var i := Find(srcs, key);
    if i < |srcs| {
      assert ItemsOk(srcs[i].items);
      var items := DropItem(srcs[i].items, ty);
      PerDropped(srcs[i].items, ty, t);
      if items == [] {
        FindRemoved(srcs, i, k);
      } else {
        FindReplaced(srcs, i, srcs[i].(items := items), k);
      }
    }
  }

  /** Whatever is done under other keys, a source stays as it is. */
  lemma OtherKey(srcs: seq<Source>, op: Op, k: Key)
    requires SourcesOk(srcs) && InRange(op) && op.key != k
    ensures SourceOf(Apply(srcs, op), k) == SourceOf(srcs, k)
  {
    hide SourcesOk, SourceOf, Apply;
    match op {
      case Add(key, ty, per, chk) => AddExactly(srcs, key, ty, per, chk, k);
      case Modify(key, ty, per, chk) => ModifyExactly(srcs, key, ty, per, chk, k, 0);
      case Remove(key, ty) => RemoveExactly(srcs, key, ty, k, 0);
      case Receive(key) => ReceiveExactly(srcs, key, k);
    }
  }

  // ---------------------------------------------------------------- the answers of a run

  /** What the receives of this key answer, each in the state that the operations before it left. */
  function Answers(srcs: seq<Source>, ops: seq<Op>, key: Key): seq<nat>
    decreases |ops|
  {
    if ops == [] then []
    else (if ops[0] == Receive(key) then [Answer(srcs, key)] else []) + Answers(Apply(srcs, ops[0]), ops[1..], key)
  }

  /** How often the error is among the answers. */
  function Tally(answers: seq<nat>, ty: nat): nat {
    if answers == [] then 0 else (if answers[0] == ty then 1 else 0) + Tally(answers[1..], ty)
  }

  ghost predicate Legal(ops: seq<Op>) { forall i :: 0 <= i < |ops| ==> InRange(ops[i]) }

  /** The source of the key is not touched, only received from. */
  ghost predicate Untouched(ops: seq<Op>, key: Key) {
    forall i :: 0 <= i < |ops| && ops[i].key == key ==> ops[i].Receive?
  }

  lemma WordStep(c: int, j: int)
    ensures ToInt32(ToInt32(c + 1) + j) == ToInt32(c + 1 + j)
    ensures MIN <= ToInt32(c) <= MAX
  {
  }

  /** The first receive, and the rest from the next count on. */
  lemma {:induction false} ErrorsHead(items: seq<Item>, ty: nat, c: int, n: nat)
    requires n > 0
    ensures Errors(items, ty, c, n) ==
            (if Meets(items, ToInt32(c)) == ty then 1 else 0) + Errors(items, ty, ToInt32(c + 1), n - 1)
    decreases n
  {
    hide Meets, ToInt32;
    WordStep(c, n - 2);
    if n > 1 {
      ErrorsHead(items, ty, c, n - 1);
      assert c + n - 1 == c + 1 + (n - 2);
      assert ToInt32(c + 1) + (n - 1) - 1 == ToInt32(c + 1) + (n - 2);
    }
  }

  /** The answers of a run are the decisions of consecutive counts, whatever happens to other keys
      between them. */
  lemma {:induction false} AnswersCount(srcs: seq<Source>, ops: seq<Op>, key: Key, ty: nat)
    requires SourcesOk(srcs) && Legal(ops) && Untouched(ops, key) && SourceOf(srcs, key).Some?
    ensures var src := SourceOf(srcs, key).value;
            Tally(Answers(srcs, ops, key), ty) == Errors(src.items, ty, src.count, |Answers(srcs, ops, key)|)
    decreases |ops|
  {
    hide SourcesOk, SourceOf, Apply, Meets, ToInt32;
    if ops != [] {
      var src, next := SourceOf(srcs, key).value, Apply(srcs, ops[0]);
      var rest := Answers(next, ops[1..], key);
      assert InRange(ops[0]) && Legal(ops[1..]) && Untouched(ops[1..], key);
      assert ApplyAll(srcs, [ops[0]]) == next;
      CommandsKeepOrder(srcs, [ops[0]]);
      if ops[0] == Receive(key) {
        ReceiveExactly(srcs, key, key);
        AnswersCount(next, ops[1..], key, ty);
        ErrorsHead(src.items, ty, src.count, |rest| + 1);
        assert Answers(srcs, ops, key) == [Answer(srcs, key)] + rest;
        assert ([Answer(srcs, key)] + rest)[1..] == rest;
      } else {
        OtherKey(srcs, ops[0], key);
        AnswersCount(next, ops[1..], key, ty);
        assert Answers(srcs, ops, key) == rest;
      }
    }
  }

  /** The promised rate of any ten receives of a key, with anything done to other keys between them,
      for every 32-bit count: met exactly when the sum does not exceed the reach of that count. */
  lemma AnsweredRate(srcs: seq<Source>, ops: seq<Op>, key: Key)
    requires SourcesOk(srcs) && Legal(ops) && Untouched(ops, key) && |Answers(srcs, ops, key)| == 10
    requires SourceOf(srcs, key).Some?
    requires var src := SourceOf(srcs, key).value; Total(src.items) <= 10 && MIN <= src.count <= MAX
    ensures var src := SourceOf(srcs, key).value;
            (forall ty :: Known(ty) ==> Tally(Answers(srcs, ops, key), ty) == Per(src.items, ty))
            <==> Total(src.items) <= Reach(src.count)
  {
    var src := SourceOf(srcs, key).value;
    assert ItemsOk(src.items);
    hide SourcesOk, SourceOf, Answers, Tally, Errors, Per, Total, Reach;
    RateExactly(src.items, src.count);
    forall ty | Known(ty)
      ensures Tally(Answers(srcs, ops, key), ty) == Errors(src.items, ty, src.count, 10)
    {
      AnswersCount(srcs, ops, key, ty);
    }
  }

  /** So after every history of commands and receives from the start, ten receives of a key whose sum is
      at most ten answer each error exactly as often as its percentage says and no error the rest of
      the time, up to 2^31 receives. */
  lemma RateAnswered(history: seq<Op>, ops: seq<Op>, key: Key)
    requires Legal(history) && Legal(ops) && Untouched(ops, key) && Receives(history) + 10 <= MAX + 1
    requires var srcs := ApplyAll([], history);
             && |Answers(srcs, ops, key)| == 10
             && SourceOf(srcs, key).Some? && Total(SourceOf(srcs, key).value.items) <= 10
    ensures var srcs := ApplyAll([], history); var items := SourceOf(srcs, key).value.items;
            && (forall ty :: Known(ty) ==> Tally(Answers(srcs, ops, key), ty) == Per(items, ty))
            && Tally(Answers(srcs, ops, key), NO_ERROR) == 10 - Total(items)
  {
    hide Answers, Tally, Per, Total, ApplyAll, SourceOf;
    ReachedSource(history, key);
    TenAnswers(ApplyAll([], history), ops, key);
  }

  /** A source after a history: its items are in order, and its count is not negative. */
  lemma ReachedSource(history: seq<Op>, key: Key)
    requires Legal(history) && Receives(history) <= MAX && SourceOf(ApplyAll([], history), key).Some?
    ensures var srcs := ApplyAll([], history); var src := SourceOf(srcs, key).value;
            SourcesOk(srcs) && Distinct(src.items) && 0 <= src.count <= Receives(history)
  {
    hide Apply, ApplyAll, Receives;
    CommandsKeepOrder([], history);
    CountsUp([], history, 0);
    var srcs := ApplyAll([], history);
    assert ItemsOk(srcs[Find(srcs, key)].items);
  }

  lemma TenAnswers(srcs: seq<Source>, ops: seq<Op>, key: Key)
    requires SourcesOk(srcs) && Legal(ops) && Untouched(ops, key) && |Answers(srcs, ops, key)| == 10
    requires SourceOf(srcs, key).Some?
    requires var src := SourceOf(srcs, key).value;
             Distinct(src.items) && Total(src.items) <= 10 && 0 <= src.count <= MAX - 9
    ensures var items := SourceOf(srcs, key).value.items;
            && (forall ty :: Known(ty) ==> Tally(Answers(srcs, ops, key), ty) == Per(items, ty))
            && Tally(Answers(srcs, ops, key), NO_ERROR) == 10 - Total(items)
  {
    hide SourcesOk, Legal, Untouched, SourceOf, Answers, Tally, Errors, Per, Total, Distinct;
    var src := SourceOf(srcs, key).value;
    RateExact(src.items, src.count);
    forall ty ensures Tally(Answers(srcs, ops, key), ty) == Errors(src.items, ty, src.count, 10) {
      AnswersCount(srcs, ops, key, ty);
    }
  }
}
